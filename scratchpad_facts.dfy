/** What explode and implode promise, stated about their specification
  * functions: which cells explode writes and with what, which state words
  * each operation reads and writes, and how their chunk chains compose.
  */
module ScratchpadFacts {
  import opened Bits
  import opened Aes
  import opened Scratchpad

  /** One block after the rounds of `keys`, in order: the per-cell view of
    * `Rounds`. */
  function BlockRounds(aes: AesPrimitives, keys: seq<Block>, b: Block): Block
    decreases |keys|
  {
    if |keys| == 0 then b else aes.enc(BlockRounds(aes, keys[..|keys| - 1], b), keys[|keys| - 1])
  }

  /** The rounds act on each of the eight blocks of a chunk separately. */
  lemma {:induction false} RoundsAt(aes: AesPrimitives, keys: seq<Block>, x: seq<Block>, j: nat)
    requires |x| == 8 && j < 8
    ensures Rounds(aes, keys, x)[j] == BlockRounds(aes, keys, x[j])
    decreases |keys|
  {
    if |keys| > 0 {
      RoundsAt(aes, keys[..|keys| - 1], x, j);
    }
  }

  /** Cell c of an exploded scratchpad is the ten rounds of the cell 128
    * bytes (eight cells) before it, and the first eight cells are the ten
    * rounds of state blocks 4-11. */
  lemma CellRecurrence(aes: AesPrimitives, k: seq<Block>, init: seq<Block>, c: nat)
    requires |k| == 10 && |init| == 8
    ensures c < 8 ==> CellOf(aes, k, init, c) == BlockRounds(aes, k, init[c])
    ensures c >= 8 ==> CellOf(aes, k, init, c) == BlockRounds(aes, k, CellOf(aes, k, init, c - 8))
  {
    var q, j := c / 8, c % 8;
    RoundsAt(aes, k, ExplodeLanes(aes, k, init, q), j);
    if c >= 8 {
      assert (c - 8) / 8 == q - 1 && (c - 8) % 8 == j;
    }
  }

  /** After n chunks from cell `base` on, cell c holds its exploded value
    * if it is one of cells base .. base + 8n - 1, and is unchanged
    * otherwise. */
  lemma {:induction false} FilledCell(aes: AesPrimitives, k: seq<Block>, init: seq<Block>, s: seq<Block>, base: nat, n: nat, c: nat)
    requires |k| == 10 && |init| == 8 && base + 8 * n <= |s| && c < |s|
    ensures Filled(aes, k, init, s, base, n)[c] == if base <= c < base + 8 * n then CellOf(aes, k, init, c - base) else s[c]
    decreases n
  {
    if n > 0 {
      var j: nat := n - 1;
      var at := base + 8 * j;
      var prev := Filled(aes, k, init, s, base, j);
      var x := ExplodeLanes(aes, k, init, n);
      assert Filled(aes, k, init, s, base, n) == WithChunk(prev, at, x);
      ChunkCell(prev, at, x, c);
      if at <= c < at + 8 {
        DivModUnique(c - base, 8, j, c - at);
        assert CellOf(aes, k, init, c - base) == x[c - at];
      } else {
        FilledCell(aes, k, init, s, base, j, c);
      }
    }
  }

  /** Cell c of a scratchpad with the chunk at `at` replaced. */
  lemma ChunkCell(s: seq<Block>, at: nat, x: seq<Block>, c: nat)
    requires |x| == 8 && at + 8 <= |s| && c < |s|
    ensures WithChunk(s, at, x)[c] == if at <= c < at + 8 then x[c - at] else s[c]
  {
  }

  /** The whole scratchpad after n chunks: see FilledCell. */
  lemma FilledAt(aes: AesPrimitives, k: seq<Block>, init: seq<Block>, s: seq<Block>, base: nat, n: nat)
    requires |k| == 10 && |init| == 8 && base + 8 * n <= |s|
    ensures forall c :: 0 <= c < |s| ==>
      Filled(aes, k, init, s, base, n)[c] == if base <= c < base + 8 * n then CellOf(aes, k, init, c - base) else s[c]
  {
    forall c | 0 <= c < |s|
      ensures Filled(aes, k, init, s, base, n)[c] == if base <= c < base + 8 * n then CellOf(aes, k, init, c - base) else s[c]
    {
      FilledCell(aes, k, init, s, base, n, c);
    }
  }

  /** Explode reads only state words 0-3 (the key seeds, blocks 0 and 1)
    * and 8-23 (blocks 4-11): two states that agree there explode to the
    * same cells. */
  lemma ExplodeReadsOnly(aes: AesPrimitives, h1: seq<u64>, h2: seq<u64>, c: nat)
    requires |h1| == 25 && |h2| == 25
    requires forall w :: 0 <= w < 4 ==> h1[w] == h2[w]
    requires forall w :: 8 <= w < 24 ==> h1[w] == h2[w]
    ensures ExplodedCell(aes, h1, c) == ExplodedCell(aes, h2, c)
  {
    assert LoadBlock(h1, 0) == LoadBlock(h2, 0) && LoadBlock(h1, 1) == LoadBlock(h2, 1);
    assert DataBlocks(h1) == DataBlocks(h2) by {
      forall j | 0 <= j < 8
        ensures DataBlocks(h1)[j] == DataBlocks(h2)[j]
      {
        assert 8 <= 2 * (4 + j) && 2 * (4 + j) + 1 < 24;
      }
    }
  }

  /** Implode changes only state words 8-23 (blocks 4-11), and what it
    * leaves there depends only on words 4-7 (the key seeds, blocks 2 and
    * 3), on words 8-23 and on the scratchpad. */
  lemma ImplodeReadsOnly(aes: AesPrimitives, h1: seq<u64>, h2: seq<u64>, s: seq<Block>, base: nat, n: nat)
    requires |h1| == 25 && |h2| == 25 && base + 8 * n <= |s|
    requires forall w :: 4 <= w < 24 ==> h1[w] == h2[w]
    ensures forall w :: 0 <= w < 25 && !(8 <= w < 24) ==> ImplodedState(aes, h1, s, base, n)[w] == h1[w]
    ensures forall w :: 8 <= w < 24 ==> ImplodedState(aes, h1, s, base, n)[w] == ImplodedState(aes, h2, s, base, n)[w]
  {
    assert LoadBlock(h1, 2) == LoadBlock(h2, 2) && LoadBlock(h1, 3) == LoadBlock(h2, 3);
    assert DataBlocks(h1) == DataBlocks(h2) by {
      forall j | 0 <= j < 8
        ensures DataBlocks(h1)[j] == DataBlocks(h2)[j]
      {
        assert 8 <= 2 * (4 + j) && 2 * (4 + j) + 1 < 24;
      }
    }
    var x := ImplodeLanes(aes, KeysAt(aes, h1, 2), DataBlocks(h1), s, base, n);
    forall w | 8 <= w < 24
      ensures WithData(h1, x)[w] == WithData(h2, x)[w]
    {
      DataWord(h1, x, w);
      DataWord(h2, x, w);
    }
  }

  /** Word w of state blocks 4-11 after they are replaced by x. */
  lemma DataWord(h: seq<u64>, x: seq<Block>, w: nat)
    requires |h| == 25 && |x| == 8 && 8 <= w < 24
    ensures WithData(h, x)[w] == WordOf(x, w - 8)
  {
  }

  /** Exploding m + n chunks is exploding n more from chunk m. */
  lemma {:induction false} ExplodeLanesSplit(aes: AesPrimitives, k: seq<Block>, init: seq<Block>, m: nat, n: nat)
    requires |k| == 10 && |init| == 8
    ensures ExplodeLanes(aes, k, init, m + n) == ExplodeLanes(aes, k, ExplodeLanes(aes, k, init, m), n)
    decreases n
  {
    if n > 0 {
      ExplodeLanesSplit(aes, k, init, m, n - 1);
    }
  }

  /** Folding m + n chunks is folding the first m, then folding the next n
    * into the result: implode of a scratchpad can be split at any chunk
    * boundary. */
  lemma {:induction false} ImplodeLanesSplit(aes: AesPrimitives, k: seq<Block>, init: seq<Block>, s: seq<Block>, base: nat, m: nat, n: nat)
    requires |k| == 10 && |init| == 8 && base + 8 * (m + n) <= |s|
    ensures ImplodeLanes(aes, k, init, s, base, m + n)
         == ImplodeLanes(aes, k, ImplodeLanes(aes, k, init, s, base, m), s, base + 8 * m, n)
    decreases n
  {
    if n > 0 {
      ImplodeLanesSplit(aes, k, init, s, base, m, n - 1);
      assert base + 8 * (m + n - 1) == base + 8 * m + 8 * (n - 1);
    }
  }

  /** Exploding the same chunks into two scratchpads, each from its own
    * base, leaves the two lanes holding the same cells. */
  lemma FilledMatch(aes: AesPrimitives, k: seq<Block>, init: seq<Block>, s1: seq<Block>, b1: nat, s2: seq<Block>, b2: nat, n: nat)
    requires |k| == 10 && |init| == 8 && b1 + 8 * n <= |s1| && b2 + 8 * n <= |s2|
    ensures LaneMatch(Filled(aes, k, init, s1, b1, n), b1, Filled(aes, k, init, s2, b2, n), b2, 8 * n)
  {
    var r1, r2 := Filled(aes, k, init, s1, b1, n), Filled(aes, k, init, s2, b2, n);
    forall i | 0 <= i < 8 * n
      ensures CellAt(r1, b1, i) == CellAt(r2, b2, i)
    {
      FilledInside(aes, k, init, s1, b1, n, i);
      FilledInside(aes, k, init, s2, b2, n, i);
    }
  }

  /** Cell i of the lane filled from cell `base` on. */
  lemma FilledInside(aes: AesPrimitives, k: seq<Block>, init: seq<Block>, s: seq<Block>, base: nat, n: nat, i: nat)
    requires |k| == 10 && |init| == 8 && base + 8 * n <= |s| && i < 8 * n
    ensures CellAt(Filled(aes, k, init, s, base, n), base, i) == CellOf(aes, k, init, i)
  {
    FilledCell(aes, k, init, s, base, n, base + i);
  }

  /** Exploding into one lane leaves a lane that does not overlap it as it
    * was. */
  lemma FilledElsewhere(aes: AesPrimitives, k: seq<Block>, init: seq<Block>, s: seq<Block>, base: nat, n: nat, b: nat, span: nat)
    requires |k| == 10 && |init| == 8 && base + 8 * n <= |s| && b + span <= |s|
    requires b + span <= base || base + 8 * n <= b
    ensures LaneMatch(Filled(aes, k, init, s, base, n), b, s, b, span)
  {
    var r := Filled(aes, k, init, s, base, n);
    forall i | 0 <= i < span
      ensures CellAt(r, b, i) == CellAt(s, b, i)
    {
      FilledCell(aes, k, init, s, base, n, b + i);
      assert r[b + i] == s[b + i];
    }
  }

  /** Implode reads only the lane it folds: two lanes holding the same
    * cells fold to the same accumulator, wherever they start. */
  lemma {:induction false} ImplodeLanesShift(aes: AesPrimitives, k: seq<Block>, init: seq<Block>, s1: seq<Block>, b1: nat, s2: seq<Block>, b2: nat, n: nat)
    requires |k| == 10 && |init| == 8 && LaneMatch(s1, b1, s2, b2, 8 * n)
    ensures ImplodeLanes(aes, k, init, s1, b1, n) == ImplodeLanes(aes, k, init, s2, b2, n)
    decreases n
  {
    if n > 0 {
      var j: nat := n - 1;
      ImplodeLanesShift(aes, k, init, s1, b1, s2, b2, j);
      ImplodeLanesNext(aes, k, init, s1, b1, j);
      ImplodeLanesNext(aes, k, init, s2, b2, j);
      ChunkMatch(s1, b1, s2, b2, 8 * n, 8 * j);
    }
  }

  /** A chunk inside two matching lanes is the same in both. */
  lemma ChunkMatch(s1: seq<Block>, b1: nat, s2: seq<Block>, b2: nat, span: nat, at: nat)
    requires LaneMatch(s1, b1, s2, b2, span) && at + 8 <= span
    ensures Chunk(s1, b1 + at) == Chunk(s2, b2 + at)
  {
    var x1, x2 := Chunk(s1, b1 + at), Chunk(s2, b2 + at);
    forall t | 0 <= t < 8
      ensures x1[t] == x2[t]
    {
      assert CellAt(s1, b1, at + t) == CellAt(s2, b2, at + t);
    }
  }

  /** Matching lanes chain. */
  lemma LaneMatchTrans(m1: seq<Block>, b1: nat, m2: seq<Block>, b2: nat, m3: seq<Block>, b3: nat, span: nat)
    requires LaneMatch(m1, b1, m2, b2, span) && LaneMatch(m2, b2, m3, b3, span)
    ensures LaneMatch(m1, b1, m3, b3, span)
  {
    forall i | 0 <= i < span
      ensures CellAt(m1, b1, i) == CellAt(m3, b3, i)
    {
      assert CellAt(m1, b1, i) == CellAt(m2, b2, i);
    }
  }
}
