/** The scratchpad fill and fold of CryptoNight (`cn_explode_scratchpad`,
  * `cn_implode_scratchpad`).
  *
  * The 200-byte Keccak state is an array of 25 little-endian 64-bit words;
  * its 16-byte block k is words 2k and 2k+1. The scratchpad is an array of
  * 16-byte cells; one hash uses MEM / 16 of them from a base cell on.
  * Both operations work on chunks of eight cells (128 bytes) and apply the
  * same ten AES rounds, keys k0..k9, to every chunk.
  */
module Scratchpad {
  import opened Bits
  import opened Aes

  // ---------------------------------------------------------------------
  // Chunks of the state and of the scratchpad

  /** State blocks 4-11, the eight blocks explode starts from and implode
    * folds the scratchpad into. */
  function DataBlocks(h: seq<u64>): (x: seq<Block>)
    requires |h| == 25
    ensures |x| == 8
  {
    seq(8, j requires 0 <= j < 8 => LoadBlock(h, 4 + j))
  }

  /** Word w of a chunk of eight blocks: the low and high halves of each
    * block in turn. */
  function WordOf(x: seq<Block>, w: nat): u64
    requires |x| == 8 && w < 16
  {
    if w % 2 == 0 then x[w / 2].lo else x[w / 2].hi
  }

  /** The state h with blocks 4-11 (words 8-23) replaced by x: reading the
    * blocks back gives x, and every other word is unchanged. */
  function WithData(h: seq<u64>, x: seq<Block>): (r: seq<u64>)
    requires |h| == 25 && |x| == 8
    ensures |r| == 25 && DataBlocks(r) == x
    ensures forall w :: 0 <= w < 25 && !(8 <= w < 24) ==> r[w] == h[w]
  {
    h[8 := x[0].lo][9 := x[0].hi][10 := x[1].lo][11 := x[1].hi]
     [12 := x[2].lo][13 := x[2].hi][14 := x[3].lo][15 := x[3].hi]
     [16 := x[4].lo][17 := x[4].hi][18 := x[5].lo][19 := x[5].hi]
     [20 := x[6].lo][21 := x[6].hi][22 := x[7].lo][23 := x[7].hi]
  }

  /** Replacing the data blocks twice keeps only the second replacement. */
  lemma WithDataTwice(h: seq<u64>, x: seq<Block>, y: seq<Block>)
    requires |h| == 25 && |x| == 8 && |y| == 8
    ensures WithData(WithData(h, x), y) == WithData(h, y)
  {
  }

  /** The state h with its data blocks replaced by its own data blocks is h. */
  lemma WithDataSame(h: seq<u64>)
    requires |h| == 25
    ensures WithData(h, DataBlocks(h)) == h
  {
  }

  /** The eight cells of the scratchpad s from cell `at` on. */
  function Chunk(s: seq<Block>, at: nat): (x: seq<Block>)
    requires at + 8 <= |s|
    ensures |x| == 8
  {
    s[at..at + 8]
  }

  /** The scratchpad s with cells at..at+7 replaced by x: reading them back
    * gives x. */
  function WithChunk(s: seq<Block>, at: nat, x: seq<Block>): (r: seq<Block>)
    requires |x| == 8 && at + 8 <= |s|
    ensures |r| == |s| && Chunk(r, at) == x
  {
    s[..at] + x + s[at + 8..]
  }

  /** Eight single-cell stores, in order, replace the chunk. */
  lemma StoresAreWithChunk(s: seq<Block>, at: nat, x: seq<Block>)
    requires |x| == 8 && at + 8 <= |s|
    ensures s[at := x[0]][at + 1 := x[1]][at + 2 := x[2]][at + 3 := x[3]]
             [at + 4 := x[4]][at + 5 := x[5]][at + 6 := x[6]][at + 7 := x[7]] == WithChunk(s, at, x)
  {
    var r := s[at := x[0]][at + 1 := x[1]][at + 2 := x[2]][at + 3 := x[3]]
              [at + 4 := x[4]][at + 5 := x[5]][at + 6 := x[6]][at + 7 := x[7]];
    assert r[..at] == s[..at] && r[at + 8..] == s[at + 8..];
    assert r[at..at + 8] == x;
    assert r == r[..at] + r[at..at + 8] + r[at + 8..];
  }

  /** Every cell outside the replaced chunk is unchanged. */
  lemma WithChunkAt(s: seq<Block>, at: nat, x: seq<Block>)
    requires |x| == 8 && at + 8 <= |s|
    ensures forall c :: 0 <= c < |s| ==> WithChunk(s, at, x)[c] == if at <= c < at + 8 then x[c - at] else s[c]
  {
  }

  /** Replacing a chunk twice keeps only the second replacement. */
  lemma WithChunkTwice(s: seq<Block>, at: nat, x: seq<Block>, y: seq<Block>)
    requires |x| == 8 && |y| == 8 && at + 8 <= |s|
    ensures WithChunk(WithChunk(s, at, x), at, y) == WithChunk(s, at, y)
  {
    var r := WithChunk(s, at, x);
    assert r[..at] == s[..at] && r[at + 8..] == s[at + 8..];
  }

  /** Cell i of the lane from cell b on. */
  function CellAt(m: seq<Block>, b: nat, i: nat): Block
    requires b + i < |m|
  {
    m[b + i]
  }

  /** The lane of m1 from cell b1 on and the lane of m2 from cell b2 on hold
    * the same span cells. */
  predicate LaneMatch(m1: seq<Block>, b1: nat, m2: seq<Block>, b2: nat, span: nat)
  {
    b1 + span <= |m1| && b2 + span <= |m2| && forall i :: 0 <= i < span ==> CellAt(m1, b1, i) == CellAt(m2, b2, i)
  }

  /** `_mm_xor_si128(a_j, b_j)` on each of the eight blocks of a chunk. */
  function XorChunk(a: seq<Block>, b: seq<Block>): (r: seq<Block>)
    requires |a| == 8 && |b| == 8
    ensures |r| == 8
  {
    seq(8, j requires 0 <= j < 8 => XorBlock(a[j], b[j]))
  }

  /** XOR of blocks does not depend on the order of its operands, so the
    * software order `xout ^= input` and the hardware order
    * `_mm_xor_si128(input, xout)` agree. */
  lemma XorChunkComm(a: seq<Block>, b: seq<Block>)
    requires |a| == 8 && |b| == 8
    ensures XorChunk(a, b) == XorChunk(b, a)
  {
    forall j | 0 <= j < 8
      ensures XorBlock(a[j], b[j]) == XorBlock(b[j], a[j])
    {
      Xor64Comm(a[j].lo, b[j].lo);
      Xor64Comm(a[j].hi, b[j].hi);
    }
  }

  /** The state after the first n word XORs `xout[j] ^= pad[j]` of the
    * software implode, j counting the words of state blocks 4-11. */
  function XorWords(h: seq<u64>, pad: seq<Block>, n: nat): (r: seq<u64>)
    requires |h| == 25 && |pad| == 8 && n <= 16
    ensures |r| == 25
    decreases n
  {
    if n == 0 then h
    else XorWords(h, pad, n - 1)[8 + n - 1 := Xor64(h[8 + n - 1], WordOf(pad, n - 1))]
  }

  /** Words that the first n XORs have not reached are unchanged; the ones
    * they have reached hold the XOR of the old word and the pad word. */
  lemma {:induction false} XorWordsAt(h: seq<u64>, pad: seq<Block>, n: nat)
    requires |h| == 25 && |pad| == 8 && n <= 16
    ensures forall w :: 0 <= w < 25 ==>
      XorWords(h, pad, n)[w] == if 8 <= w < 8 + n then Xor64(h[w], WordOf(pad, w - 8)) else h[w]
    decreases n
  {
    if n > 0 { XorWordsAt(h, pad, n - 1); }
  }

  /** Words that the first n XORs have not reached are unchanged. */
  lemma {:induction false} XorWordsFrame(h: seq<u64>, pad: seq<Block>, n: nat)
    requires |h| == 25 && |pad| == 8 && n <= 16
    ensures forall w :: 0 <= w < 25 && !(8 <= w < 8 + n) ==> XorWords(h, pad, n)[w] == h[w]
    decreases n
  {
    if n > 0 { XorWordsFrame(h, pad, n - 1); }
  }

  /** The sixteen word XORs of the software implode XOR the chunk into the
    * data blocks, as the hardware branch's eight block XORs do. */
  lemma XorWordsAll(h: seq<u64>, pad: seq<Block>)
    requires |h| == 25 && |pad| == 8
    ensures XorWords(h, pad, 16) == WithData(h, XorChunk(DataBlocks(h), pad))
  {
    XorWordsAt(h, pad, 16);
    var r, t := XorWords(h, pad, 16), WithData(h, XorChunk(DataBlocks(h), pad));
    forall w | 8 <= w < 24
      ensures r[w] == t[w]
    {
      var b := (w - 8) / 2;
      assert w == 8 + 2 * b || w == 9 + 2 * b;
      assert DataBlocks(t)[b] == LoadBlock(t, 4 + b);
    }
  }

  // ---------------------------------------------------------------------
  // What explode and implode compute

  /** Chunk n of an exploded scratchpad, counting from 1: the ten rounds
    * applied n times to the starting chunk init. */
  function ExplodeLanes(aes: AesPrimitives, k: seq<Block>, init: seq<Block>, n: nat): (x: seq<Block>)
    requires |k| == 10 && |init| == 8
    ensures |x| == 8
    decreases n
  {
    if n == 0 then init else TenRounds(aes, k, ExplodeLanes(aes, k, init, n - 1))
  }

  /** Cell c of a scratchpad exploded with keys k from the chunk init. */
  function CellOf(aes: AesPrimitives, k: seq<Block>, init: seq<Block>, c: nat): Block
    requires |k| == 10 && |init| == 8
  {
    ExplodeLanes(aes, k, init, c / 8 + 1)[c % 8]
  }

  /** Cell c of the scratchpad exploded from state h, with the keys that
    * state blocks 0 and 1 give. */
  function ExplodedCell(aes: AesPrimitives, h: seq<u64>, c: nat): Block
    requires |h| == 25
  {
    CellOf(aes, KeysAt(aes, h, 0), DataBlocks(h), c)
  }

  /** The scratchpad s after the first n chunks from cell `base` on have
    * been written. */
  function Filled(aes: AesPrimitives, k: seq<Block>, init: seq<Block>, s: seq<Block>, base: nat, n: nat): (r: seq<Block>)
    requires |k| == 10 && |init| == 8 && base + 8 * n <= |s|
    ensures |r| == |s|
    decreases n
  {
    if n == 0 then s
    else WithChunk(Filled(aes, k, init, s, base, n - 1), base + 8 * (n - 1), ExplodeLanes(aes, k, init, n))
  }

  /** The accumulator after folding the first n chunks of the scratchpad
    * s from cell `base` on into init: each chunk is XORed in and the ten
    * rounds applied. */
  function ImplodeLanes(aes: AesPrimitives, k: seq<Block>, init: seq<Block>, s: seq<Block>, base: nat, n: nat): (x: seq<Block>)
    requires |k| == 10 && |init| == 8 && base + 8 * n <= |s|
    ensures |x| == 8
    decreases n
  {
    if n == 0 then init
    else TenRounds(aes, k, XorChunk(Chunk(s, base + 8 * (n - 1)), ImplodeLanes(aes, k, init, s, base, n - 1)))
  }

  /** One more chunk folded in: XOR it into the accumulator, then ten
    * rounds. */
  lemma ImplodeLanesNext(aes: AesPrimitives, k: seq<Block>, init: seq<Block>, s: seq<Block>, base: nat, i: nat)
    requires |k| == 10 && |init| == 8 && base + 8 * i + 8 <= |s|
    ensures ImplodeLanes(aes, k, init, s, base, i + 1)
         == TenRounds(aes, k, XorChunk(Chunk(s, base + 8 * i), ImplodeLanes(aes, k, init, s, base, i)))
  {
  }

  /** The state after implode of n chunks from cell `base` on: blocks 4-11
    * replaced by the fold of those chunks into them, with the keys that
    * state blocks 2 and 3 give. */
  function ImplodedState(aes: AesPrimitives, h: seq<u64>, s: seq<Block>, base: nat, n: nat): (r: seq<u64>)
    requires |h| == 25 && base + 8 * n <= |s|
  {
    WithData(h, ImplodeLanes(aes, KeysAt(aes, h, 2), DataBlocks(h), s, base, n))
  }

  // ---------------------------------------------------------------------
  // Stores and in-memory rounds

  /** Eight `_mm_store_si128` into consecutive scratchpad cells. */
  method StoreChunk(output: array<Block>, at: nat, x: seq<Block>)
    requires |x| == 8 && at + 8 <= output.Length
    modifies output
    ensures output[..] == WithChunk(old(output[..]), at, x)
  {
    output[at] := x[0];
    output[at + 1] := x[1];
    output[at + 2] := x[2];
    output[at + 3] := x[3];
    output[at + 4] := x[4];
    output[at + 5] := x[5];
    output[at + 6] := x[6];
    output[at + 7] := x[7];
    StoresAreWithChunk(old(output[..]), at, x);
  }

  /** Eight `_mm_store_si128` into state blocks 4-11. */
  method StoreData(h: array<u64>, x: seq<Block>)
    requires |x| == 8 && h.Length == 25
    modifies h
    ensures h[..] == WithData(old(h[..]), x)
  {
    h[8], h[9] := x[0].lo, x[0].hi;
    h[10], h[11] := x[1].lo, x[1].hi;
    h[12], h[13] := x[2].lo, x[2].hi;
    h[14], h[15] := x[3].lo, x[3].hi;
    h[16], h[17] := x[4].lo, x[4].hi;
    h[18], h[19] := x[5].lo, x[5].hi;
    h[20], h[21] := x[6].lo, x[6].hi;
    h[22], h[23] := x[7].lo, x[7].hi;
  }

  /** `soft_aes_round(key, xin, xout)` with xout the scratchpad chunk at
    * cell `at`: the eight blocks of xin, each given one round. */
  method SoftAesRound(aes: AesPrimitives, key: Block, xin: seq<Block>, output: array<Block>, at: nat)
    requires |xin| == 8 && at + 8 <= output.Length
    modifies output
    ensures output[..] == WithChunk(old(output[..]), at, RoundChunk(aes, key, xin))
  {
    StoreChunk(output, at, RoundChunk(aes, key, xin));
  }

  /** The ten calls `soft_aes_round(k_r, ., xout)` of one explode chunk: the
    * first reads xin, the others the chunk in place. */
  method SoftExplodeChunk(aes: AesPrimitives, k: seq<Block>, xin: seq<Block>, output: array<Block>, at: nat)
    requires |k| == 10 && |xin| == 8 && at + 8 <= output.Length
    modifies output
    ensures output[..] == WithChunk(old(output[..]), at, TenRounds(aes, k, xin))
  {
    ghost var s := output[..];
    SoftAesRound(aes, k[0], xin, output, at);
    RoundsStep(aes, k, xin, 0);
    for r := 1 to 10
      invariant output[..] == WithChunk(s, at, Rounds(aes, k[..r], xin))
    {
      RoundsStep(aes, k, xin, r);
      ghost var x := Rounds(aes, k[..r], xin);
      SoftAesRound(aes, k[r], Chunk(output[..], at), output, at);
      WithChunkTwice(s, at, x, RoundChunk(aes, k[r], x));
    }
    assert k[..10] == k;
  }

  /** Ten `aes_round` calls with keys k0..k9 on eight blocks held in
    * registers. */
  method AesRounds(aes: AesPrimitives, k: seq<Block>, xin: seq<Block>) returns (x: seq<Block>)
    requires |k| == 10 && |xin| == 8
    ensures x == TenRounds(aes, k, xin)
  {
    x := xin;
    for r := 0 to 10
      invariant x == Rounds(aes, k[..r], xin)
    {
      RoundsStep(aes, k, xin, r);
      x := RoundChunk(aes, k[r], x);
    }
    assert k[..10] == k;
  }

  /** `soft_aes_round(key, xout, xout)` with xout state blocks 4-11: one
    * round on each block, in place. */
  method SoftAesRoundData(aes: AesPrimitives, key: Block, h: array<u64>)
    requires h.Length == 25
    modifies h
    ensures h[..] == WithData(old(h[..]), RoundChunk(aes, key, DataBlocks(old(h[..]))))
  {
    StoreData(h, RoundChunk(aes, key, DataBlocks(h[..])));
  }

  /** `xout[j] ^= input_chunk[j]` over the words of state blocks 4-11 and
    * the scratchpad chunk at cell `at`. */
  method XorIntoData(h: array<u64>, input: seq<Block>, at: nat)
    requires h.Length == 25 && at + 8 <= |input|
    modifies h
    ensures h[..] == XorWords(old(h[..]), Chunk(input, at), 16)
  {
    ghost var pad := Chunk(input, at);
    for j := 0 to 16
      invariant h[..] == XorWords(old(h[..]), pad, j)
    {
      XorWordsFrame(old(h[..]), pad, j);
      var word := if j % 2 == 0 then input[at + j / 2].lo else input[at + j / 2].hi;
      assert word == WordOf(pad, j);
      h[8 + j] := Xor64(h[8 + j], word);
    }
  }

  /** The ten rounds of one software implode chunk on state blocks 4-11. */
  method SoftImplodeRounds(aes: AesPrimitives, k: seq<Block>, h: array<u64>)
    requires |k| == 10 && h.Length == 25
    modifies h
    ensures h[..] == WithData(old(h[..]), TenRounds(aes, k, DataBlocks(old(h[..]))))
  {
    ghost var s := h[..];
    for r := 0 to 10
      invariant h[..] == WithData(s, Rounds(aes, k[..r], DataBlocks(s)))
    {
      RoundsStep(aes, k, DataBlocks(s), r);
      ghost var prev := h[..];
      SoftAesRoundData(aes, k[r], h);
      WithDataTwice(s, DataBlocks(prev), RoundChunk(aes, k[r], DataBlocks(prev)));
    }
    assert k[..10] == k;
  }

  /** One chunk of explode: ten rounds on xin, stored at cell `at`. The
    * software branch chains the rounds through the scratchpad chunk; the
    * hardware branch keeps the eight blocks in registers and stores them
    * after the tenth round. Either way the chunk written is the result. */
  method ExplodeChunk(aes: AesPrimitives, soft: bool, k: seq<Block>, xin: seq<Block>, output: array<Block>, at: nat)
    returns (xout: seq<Block>)
    requires |k| == 10 && |xin| == 8 && at + 8 <= output.Length
    modifies output
    ensures xout == TenRounds(aes, k, xin)
    ensures output[..] == WithChunk(old(output[..]), at, xout)
  {
    if soft {
      SoftExplodeChunk(aes, k, xin, output, at);
      xout := Chunk(output[..], at);
    } else {
      xout := AesRounds(aes, k, xin);
      StoreChunk(output, at, xout);
    }
  }

  /** One chunk of implode: the scratchpad chunk at cell `at` XORed into
    * state blocks 4-11, then ten rounds on them. */
  method SoftImplodeChunk(aes: AesPrimitives, k: seq<Block>, input: seq<Block>, at: nat, output: array<u64>)
    requires |k| == 10 && output.Length == 25 && at + 8 <= |input|
    modifies output
    ensures output[..] == WithData(old(output[..]), TenRounds(aes, k, XorChunk(Chunk(input, at), DataBlocks(old(output[..])))))
  {
    ghost var h := output[..];
    ghost var pad := Chunk(input, at);
    XorIntoData(output, input, at);
    XorWordsAll(h, pad);
    XorChunkComm(DataBlocks(h), pad);
    ghost var mid := output[..];
    SoftImplodeRounds(aes, k, output);
    WithDataTwice(h, DataBlocks(mid), TenRounds(aes, k, DataBlocks(mid)));
  }

  /** A chunk folded into a state whose data blocks hold the accumulator
    * acc leaves the fold of the chunk into acc there. */
  lemma FoldIntoData(aes: AesPrimitives, k: seq<Block>, h: seq<u64>, acc: seq<Block>, c: seq<Block>, prev: seq<u64>, next: seq<u64>)
    requires |k| == 10 && |h| == 25 && |acc| == 8 && |c| == 8
    requires prev == WithData(h, acc)
    requires next == WithData(prev, TenRounds(aes, k, XorChunk(c, DataBlocks(prev))))
    ensures next == WithData(h, TenRounds(aes, k, XorChunk(c, acc)))
  {
    WithDataTwice(h, acc, TenRounds(aes, k, XorChunk(c, acc)));
  }

  /** MEM bytes are MEM / 128 chunks of eight 16-byte cells. */
  lemma MemChunks(mem: nat)
    requires mem % 128 == 0
    ensures 8 * (mem / 128) == mem / 16
  {
    var q := mem / 128;
    DivModUnique(mem, 16, 8 * q, 0);
  }

  // ---------------------------------------------------------------------
  // The two operations

  /** `cn_explode_scratchpad<MEM, SOFT_AES>(state, memory + base)`: fill
    * the MEM / 16 cells from `base` on with the chain of ten-round
    * encryptions of state blocks 4-11, keyed by state blocks 0 and 1. */
  method ExplodeScratchpad(aes: AesPrimitives, soft: bool, mem: nat, input: seq<u64>, output: array<Block>, base: nat)
    requires |input| == 25 && mem % 128 == 0 && base + mem / 16 <= output.Length
    modifies output
    ensures output[..] == Filled(aes, KeysAt(aes, input, 0), DataBlocks(input), old(output[..]), base, mem / 128)
  {
    var k := AesGenKey(aes, input, 0);
    ExplodeWithKeys(aes, soft, mem, k, input, output, base);
  }

  /** The loop of `cn_explode_scratchpad` once the keys are known: each
    * chunk is the ten rounds of the one before, the first of state blocks
    * 4-11. */
  method ExplodeWithKeys(aes: AesPrimitives, soft: bool, mem: nat, k: seq<Block>, input: seq<u64>, output: array<Block>, base: nat)
    requires |k| == 10 && |input| == 25 && mem % 128 == 0 && base + mem / 16 <= output.Length
    modifies output
    ensures output[..] == Filled(aes, k, DataBlocks(input), old(output[..]), base, mem / 128)
  {
    MemChunks(mem);
    var chunks := mem / 128;
    ghost var init := DataBlocks(input);
    ghost var s := output[..];
    var xin := DataBlocks(input);
    for i := 0 to chunks
      invariant xin == ExplodeLanes(aes, k, init, i)
      invariant output[..] == Filled(aes, k, init, s, base, i)
    {
      xin := ExplodeChunk(aes, soft, k, xin, output, base + 8 * i);
    }
  }

  /** `cn_implode_scratchpad<MEM, SOFT_AES>(memory + base, state)`: fold the
    * MEM / 16 cells from `base` on, chunk by chunk, into state blocks 4-11,
    * with keys from state blocks 2 and 3. */
  method ImplodeScratchpad(aes: AesPrimitives, soft: bool, mem: nat, input: seq<Block>, base: nat, output: array<u64>)
    requires output.Length == 25 && mem % 128 == 0 && base + mem / 16 <= |input|
    modifies output
    ensures output[..] == ImplodedState(aes, old(output[..]), input, base, mem / 128)
  {
    var k := AesGenKey(aes, output[..], 2);
    ImplodeWithKeys(aes, soft, mem, k, input, base, output);
  }

  /** The loop of `cn_implode_scratchpad` once the keys are known. */
  method ImplodeWithKeys(aes: AesPrimitives, soft: bool, mem: nat, k: seq<Block>, input: seq<Block>, base: nat, output: array<u64>)
    requires |k| == 10 && output.Length == 25 && mem % 128 == 0 && base + mem / 16 <= |input|
    modifies output
    ensures
      output[..] == WithData(old(output[..]), ImplodeLanes(aes, k, DataBlocks(old(output[..])), input, base, mem / 128))
  {
    MemChunks(mem);
    if soft {
      SoftImplodeLoop(aes, k, mem / 128, input, base, output);
    } else {
      HardImplodeLoop(aes, k, mem / 128, input, base, output);
    }
  }

  /** The software branch: each chunk is XORed into state blocks 4-11 and
    * the rounds run on the state in place. */
  method SoftImplodeLoop(aes: AesPrimitives, k: seq<Block>, chunks: nat, input: seq<Block>, base: nat, output: array<u64>)
    requires |k| == 10 && output.Length == 25 && base + 8 * chunks <= |input|
    modifies output
    ensures output[..] == WithData(old(output[..]), ImplodeLanes(aes, k, DataBlocks(old(output[..])), input, base, chunks))
  {
    ghost var h := output[..];
    WithDataSame(h);
    for i := 0 to chunks
      invariant output[..] == WithData(h, ImplodeLanes(aes, k, DataBlocks(h), input, base, i))
    {
      SoftImplodeStep(aes, k, input, base, i, output, h);
    }
  }

  /** Chunk i of the software branch, with the state holding the fold of
    * the chunks before it. */
  method SoftImplodeStep(aes: AesPrimitives, k: seq<Block>, input: seq<Block>, base: nat, i: nat, output: array<u64>, ghost h: seq<u64>)
    requires |k| == 10 && output.Length == 25 && |h| == 25 && base + 8 * i + 8 <= |input|
    requires output[..] == WithData(h, ImplodeLanes(aes, k, DataBlocks(h), input, base, i))
    modifies output
    ensures output[..] == WithData(h, ImplodeLanes(aes, k, DataBlocks(h), input, base, i + 1))
  {
    ghost var acc := ImplodeLanes(aes, k, DataBlocks(h), input, base, i);
    ImplodeLanesNext(aes, k, DataBlocks(h), input, base, i);
    ghost var prev := output[..];
    ghost var c := Chunk(input, base + 8 * i);
    SoftImplodeChunk(aes, k, input, base + 8 * i, output);
    ghost var next := output[..];
    assert next == WithData(prev, TenRounds(aes, k, XorChunk(c, DataBlocks(prev))));
    FoldIntoData(aes, k, h, acc, c, prev, next);
  }

  /** The hardware branch: the eight blocks stay in registers across all
    * chunks and are stored into the state after the last one. */
  method HardImplodeLoop(aes: AesPrimitives, k: seq<Block>, chunks: nat, input: seq<Block>, base: nat, output: array<u64>)
    requires |k| == 10 && output.Length == 25 && base + 8 * chunks <= |input|
    modifies output
    ensures output[..] == WithData(old(output[..]), ImplodeLanes(aes, k, DataBlocks(old(output[..])), input, base, chunks))
  {
    var x := ImplodeRegisters(aes, k, chunks, input, base, DataBlocks(output[..]));
    StoreData(output, x);
  }

  /** The register loop of the hardware branch: XOR each chunk into the
    * eight blocks, then ten rounds. */
  method ImplodeRegisters(aes: AesPrimitives, k: seq<Block>, chunks: nat, input: seq<Block>, base: nat, init: seq<Block>)
    returns (x: seq<Block>)
    requires |k| == 10 && |init| == 8 && base + 8 * chunks <= |input|
    ensures x == ImplodeLanes(aes, k, init, input, base, chunks)
  {
    x := init;
    for i := 0 to chunks
      invariant x == ImplodeLanes(aes, k, init, input, base, i)
    {
      ImplodeLanesNext(aes, k, init, input, base, i);
      x := AesRounds(aes, k, XorChunk(Chunk(input, base + 8 * i), x));
    }
  }
}
