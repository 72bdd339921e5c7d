# CryptoNight and the hashrate counter, modelled in Dafny

This project models two parts of a CPU miner.

**The CryptoNight hash** (`src/crypto/CryptoNight_x86.h`). The hash
works in five stages:

1. keccak turns the input into a 200-byte state;
2. `cn_explode_scratchpad` fills a MEM-byte scratchpad from the state,
   128 bytes at a time, with ten AES rounds per chunk under a key schedule
   built by `aes_genkey`;
3. the memory-hard mixer loop reads and rewrites 16-byte cells at
   data-dependent, masked offsets for ITERATIONS steps, using a
   64×64→128-bit multiply;
4. `cn_implode_scratchpad` folds the scratchpad back into bytes 64–191 of
   the state;
5. keccak-f runs, and one of four final hashes, chosen by the low two bits
   of the state, gives the 32-byte result.

`cryptonight_double_hash` runs two inputs side by side. Each lane has its
own state and its own half of one scratchpad.

The AES round, AES key-generation assist, keccak, keccak-f and the four
final hashes (BLAKE-256, Groestl, JH, Skein) are parameters of the model,
collected in the records `Aes.AesPrimitives` and
`CryptoNight.HashPrimitives`. MEM, MASK and ITERATIONS are the fields of
`CryptoNight.Config`. `CryptoNight.ValidConfig` states the assumptions the
pipeline needs:
- MEM is a multiple of 128;
- MASK has its low four bits clear;
- MASK + 16 ≤ MEM.

The state is 25 64-bit words. The scratchpad is an array of 16-byte
`Block`s. Each operation has two forms:
- a method that mutates these arrays as the C code does, branch by branch
  (software AES and AES-NI);
- a specification function on sequences.

Each method is proved equal to its specification function. The
specification functions carry the lemmas:
- the key schedule is the AES-256 key expansion of section 5.2 of
  FIPS-197;
- explode and implode read and write only their regions;
- each mixer step changes at most two cells, inside the lane;
- the hash does not depend on where its lane lies in memory;
- the double hash is two single hashes.

**The hashrate counter** (`src/workers/Hashrate.cpp`). Each mining thread
owns a ring of kBucketSize (hash count, timestamp) samples:
- `add` writes at `top` and advances `top` with the mask
  kBucketSize − 1;
- an extra slot at index kBucketSize is a baseline: while its timestamp
  is 0, every add with a nonzero count overwrites it, and once its
  timestamp is nonzero it is kept;
- `calc(threadId, ms)` scans backwards from the newest sample and picks
  the latest sample and the first one older than the window;
- `updateAverage` sums the per-thread rates between the baseline and the
  newest sample;
- `updateHighest` keeps a running maximum.

The class `Hashrate.Hashrate` holds the arrays and fields and mutates them
in place. Its methods are proved against the value-level functions
`Push`, `Scan` and `TotalRate`. The lemmas state:
- what the ring holds after a sequence of adds;
- that the baseline never changes once its timestamp is nonzero;
- that the scan finds exactly the pair the source describes.

kBucketSize is 2^bits. The clock reading `now` is a parameter of `Calc`.

## Model

| member | source | states |
|---|---|---|
| WideMul.Umul128Exact | src/crypto/CryptoNight_x86.h:96-119 | the portable `__umul128` returns the low word and the high word of the exact 128-bit product: hi·2^64 + lo = a·b for all 64-bit a, b |
| WideMul.CombineExact | src/crypto/CryptoNight_x86.h:104-118 | combining the four 32×32 partial products, with the carry out of the middle sum and the carry out of the low word, gives the exact product of the two 64-bit numbers written in 32-bit halves |
| WideMul.CarryDetect | src/crypto/CryptoNight_x86.h:110-116 | the test `sum < operand` after a wrapping 64-bit add is true exactly when the true sum reaches 2^64, and the carry is then 2^64 |
| WideMul.Umul128Wide | src/crypto/CryptoNight_x86.h:78-83 | the GNU form, through a 128-bit integer, also gives hi·2^64 + lo = a·b |
| WideMul.Umul128Agree | src/crypto/CryptoNight_x86.h:78-119 | the portable and the GNU forms of `__umul128` return the same pair on every input |
| Aes.SlXorLanes | src/crypto/CryptoNight_x86.h:123-135 | `sl_xor` maps the 32-bit lanes (a1, a2, a3, a4) to (a1, a1^a2, a1^a2^a3, a1^a2^a3^a4) |
| Aes.GenKeySubRecurrence | src/crypto/CryptoNight_x86.h:138-163 | one `aes_genkey_sub` step produces, in each new key, the running XOR of the previous key of the same parity. The first new key is seeded with lane 3 of keygenassist(previous odd key, rcon); the second with lane 2 of keygenassist(new even key, 0). The soft form differs only in the keygenassist it calls |
| Aes.AesGenKey | src/crypto/CryptoNight_x86.h:166-189 | the ten keys are the two 16-byte blocks read from the input, followed by four sub-step pairs with rcon 1, 2, 4, 8 |
| KeyExpansion.KeyPairsStep | src/crypto/CryptoNight_x86.h:166-189 | k0 and k1 are the two seed blocks unchanged, and pair (k2q, k2q+1) is the sub-step with rcon 2^(q−1) applied to the pair before it, for q = 1..4 |
| KeyExpansion.KeyScheduleIsKeyExpansion | src/crypto/CryptoNight_x86.h:138-189 | lane i mod 4 of key i/4 equals word i of the AES-256 KeyExpansion (section 5.2 of FIPS-197) of the two seed blocks, for each of the 40 words |
| ScratchpadFacts.RoundsAt | src/crypto/CryptoNight_x86.h:192-202 | `aes_round` acts on the eight blocks of a chunk independently: after any number of rounds, block j of the chunk is the rounds of input block j alone |
| Aes.RoundsStep | src/crypto/CryptoNight_x86.h:219-228 | applying the first n+1 keys is applying key n to the result of the first n keys |
| Scratchpad.ExplodeScratchpad | src/crypto/CryptoNight_x86.h:205-271 | after `cn_explode_scratchpad` the MEM bytes of the lane hold the chained fill: the key schedule comes from state blocks 0–1 and the initial chunk from state blocks 4–11; every cell outside the lane is unchanged. This holds in both the software and the AES-NI branch |
| Scratchpad.ExplodeWithKeys | src/crypto/CryptoNight_x86.h:213-270 | the chunk loop, in both branches, stores chunk n as the ten rounds of chunk n−1, starting from state blocks 4–11 |
| Scratchpad.ExplodeChunk | src/crypto/CryptoNight_x86.h:217-268 | one loop iteration returns the ten rounds of its input chunk and stores exactly that chunk at the current offset, leaving every other cell as it was |
| Scratchpad.SoftAesRound | src/crypto/CryptoNight_x86.h:219-228 | one in-place `soft_aes_round` replaces the eight cells of the output chunk by one round of the input chunk and changes no other cell |
| Scratchpad.SoftExplodeChunk | src/crypto/CryptoNight_x86.h:217-228 | the software branch's ten in-place `soft_aes_round` calls on the output chunk store the ten rounds of the input chunk there |
| Scratchpad.AesRounds | src/crypto/CryptoNight_x86.h:250-259 | the AES-NI branch's ten `aes_round` calls on eight registers compute the ten rounds of the chunk |
| Scratchpad.StoreChunk | src/crypto/CryptoNight_x86.h:261-268 | the eight `_mm_store_si128` calls replace exactly the eight cells of the chunk at the offset |
| ScratchpadFacts.FilledCell | src/crypto/CryptoNight_x86.h:213-270 | cell c of the exploded lane is the c-th cell of the chain; every cell outside the lane keeps its old value |
| ScratchpadFacts.CellRecurrence | src/crypto/CryptoNight_x86.h:213-270 | cell c of the chain is the ten rounds of state block 4 + c for c < 8, and the ten rounds of cell c − 8 otherwise |
| ScratchpadFacts.ExplodeReadsOnly | src/crypto/CryptoNight_x86.h:205-271 | explode reads only state blocks 0–1 and 4–11: two states that agree there explode to the same cells |
| ScratchpadFacts.ExplodeLanesSplit | src/crypto/CryptoNight_x86.h:213-231 | running m + n chunk steps is running n steps from where m steps left off |
| ScratchpadFacts.FilledMatch | src/crypto/CryptoNight_x86.h:205-271 | two lanes exploded from the same state at different offsets hold the same cells, cell for cell |
| ScratchpadFacts.FilledElsewhere | src/crypto/CryptoNight_x86.h:205-271 | explode leaves every range of cells outside its lane unchanged |
| Scratchpad.ImplodeScratchpad | src/crypto/CryptoNight_x86.h:274-348 | after `cn_implode_scratchpad` the state is the implode fold, with keys from state blocks 2–3, written into blocks 4–11 and only there; the scratchpad is read only. This holds in both branches |
| Scratchpad.ImplodeWithKeys | src/crypto/CryptoNight_x86.h:277-347 | with the key schedule given, both branches replace state blocks 4–11 by the fold of the lane into the old blocks 4–11 |
| Scratchpad.SoftImplodeLoop | src/crypto/CryptoNight_x86.h:283-298 | the software loop, which XORs each chunk into the state in place and runs ten rounds there, leaves blocks 4–11 equal to the fold after all chunks |
| Scratchpad.SoftImplodeStep | src/crypto/CryptoNight_x86.h:283-298 | one iteration of the software implode loop extends the fold held in state blocks 4–11 by one chunk |
| Scratchpad.SoftImplodeChunk | src/crypto/CryptoNight_x86.h:285-297 | one software iteration sets blocks 4–11 to the ten rounds of (chunk XOR old blocks 4–11) |
| Scratchpad.XorIntoData | src/crypto/CryptoNight_x86.h:285-286 | the inner XOR loop XORs the chunk into words 8–23 of the state and changes no other word |
| Scratchpad.XorWordsAll | src/crypto/CryptoNight_x86.h:285-286 | XORing the sixteen words of a chunk into state words 8–23 one by one equals XORing the chunk block-wise into state blocks 4–11 |
| Scratchpad.SoftAesRoundData | src/crypto/CryptoNight_x86.h:288-297 | one in-place `soft_aes_round` on the state replaces blocks 4–11 by one round of themselves and keeps words 0–7 and 24 |
| Scratchpad.SoftImplodeRounds | src/crypto/CryptoNight_x86.h:288-297 | the ten in-place `soft_aes_round` calls on the state replace blocks 4–11 by their ten rounds and change nothing else |
| Scratchpad.HardImplodeLoop | src/crypto/CryptoNight_x86.h:307-346 | the AES-NI branch loads blocks 4–11 into registers, folds every chunk into them and stores them back; the result is the same fold as the software branch |
| Scratchpad.ImplodeRegisters | src/crypto/CryptoNight_x86.h:316-337 | the register loop returns the fold: for each chunk, the ten rounds of (chunk XOR registers) |
| Scratchpad.StoreData | src/crypto/CryptoNight_x86.h:339-346 | the eight stores to `output + 4 … output + 11` replace state words 8–23 and keep every other word |
| Scratchpad.WithData | src/crypto/CryptoNight_x86.h:339-346 | writing eight blocks into the state puts them in blocks 4–11 and keeps words 0–7 and 24 |
| ScratchpadFacts.ImplodeReadsOnly | src/crypto/CryptoNight_x86.h:274-348 | implode keeps state words 0–7 and 24, and its result in words 8–23 depends only on state blocks 2–11 and the scratchpad |
| ScratchpadFacts.ImplodeLanesSplit | src/crypto/CryptoNight_x86.h:283-298 | folding m + n chunks is folding n chunks, starting at chunk m, from the result of the first m |
| ScratchpadFacts.ImplodeLanesShift | src/crypto/CryptoNight_x86.h:274-348 | the fold depends only on the cells of the lane, not on where the lane lies |
| Mixer.MixStep | src/crypto/CryptoNight_x86.h:376-402 | one mixer step leaves idx equal to al and changes no cell outside the MASK / 16 + 1 cells of the lane |
| MixerFacts.AddressInBounds | src/crypto/CryptoNight_x86.h:380 | the byte offset `idx & MASK` is 16 times a cell index of at most MASK / 16, so the 16-byte access lies inside the MEM-byte lane |
| MixerFacts.MixStepTwoCells | src/crypto/CryptoNight_x86.h:380-397 | a mixer step changes at most the cell at `idx & MASK` before the round and the cell at the new `idx & MASK` after it; every other cell keeps its value |
| MixerFacts.MixRunFrame | src/crypto/CryptoNight_x86.h:376-402 | the whole mixer loop changes no cell outside its lane |
| MixerFacts.MixRunShift | src/crypto/CryptoNight_x86.h:358-402 | the loop depends only on the cells of its lane: two memories that agree there give the same accumulators and agreeing lanes |
| Mixer.Mix | src/crypto/CryptoNight_x86.h:361-431 | the mixer, starting from a = (h0^h4, h1^h5), b = (h2^h6, h3^h7) and idx = h0^h4, leaves the scratchpad equal to ITERATIONS specification steps. This holds in both the software and the AES-NI loop |
| Mixer.SoftMixStep | src/crypto/CryptoNight_x86.h:378-401 | one iteration of the software loop performs the specification step on the accumulators and the scratchpad |
| Mixer.HardMixStep | src/crypto/CryptoNight_x86.h:410-430 | one iteration of the AES-NI loop performs the same specification step |
| Mixer.SoftMulHalf | src/crypto/CryptoNight_x86.h:388-401 | the multiply half of an iteration: al += hi and ah += lo modulo 2^64, store (al, ah), then XOR in the cell read before the store, and idx = al |
| Mixer.HardMulHalf | src/crypto/CryptoNight_x86.h:417-430 | the AES-NI multiply half performs the same specification half-step |
| Mixer.DoubleMix | src/crypto/CryptoNight_x86.h:455-582 | the two-lane mixer leaves the scratchpad equal to ITERATIONS two-lane specification steps, in both loops |
| Mixer.SoftDoubleStep | src/crypto/CryptoNight_x86.h:479-528 | one software double iteration is the two-lane specification step |
| Mixer.SoftDoubleRound | src/crypto/CryptoNight_x86.h:479-498 | the interleaved round halves of the two lanes equal lane 0's round half followed by lane 1's |
| Mixer.HardDoubleStep | src/crypto/CryptoNight_x86.h:538-581 | one AES-NI double iteration is the two-lane specification step |
| Mixer.HardDoubleRound | src/crypto/CryptoNight_x86.h:538-552 | the interleaved AES-NI round halves equal lane 0's round half followed by lane 1's |
| MixerFacts.MixRunsCommute | src/crypto/CryptoNight_x86.h:441-593 | runs of the mixer on two disjoint lanes commute, and neither sees the other's cells |
| MixerFacts.RoundMulCommute | src/crypto/CryptoNight_x86.h:479-528 | lane 1's round half and lane 0's multiply half, on disjoint lanes, can be swapped |
| MixerFacts.DoubleRunIsTwoRuns | src/crypto/CryptoNight_x86.h:455-582 | n two-lane iterations equal n single-lane iterations on lane 0 followed by n on lane 1 |
| CryptoNight.FinalizerIndex | src/crypto/CryptoNight_x86.h:437 | the finalizer index `state[0] & 3` is below 4, a valid entry of `extra_hashes`, and equals state[0] mod 4 |
| CryptoNight.HashIndependent | src/crypto/CryptoNight_x86.h:351-438 | the hash does not depend on the old scratchpad contents or on where the lane lies in memory |
| CryptoNight.KeccakLengthBounds | src/crypto/CryptoNight_x86.h:354 | the `(int) size` narrowing lies in [−2^31, 2^31), is size itself below 2^31, and never exceeds size when it is not negative |
| CryptoNight.KeccakLengthWraps | src/crypto/CryptoNight_x86.h:354 | the narrowing is size modulo 2^32 read as a signed 32-bit value: it repeats with period 2^32, so a size of 2^32 + 76 hashes only 76 bytes |
| CryptoNight.StoreState | src/crypto/CryptoNight_x86.h:354 | writing the 200 keccak bytes into the context leaves the state array equal to them |
| CryptoNight.ExplodeLane | src/crypto/CryptoNight_x86.h:452-453 | explode from a state array into the lane at `memory + base` leaves the scratchpad equal to the specification explode |
| CryptoNight.ImplodeLane | src/crypto/CryptoNight_x86.h:585-586 | implode of the lane at `memory + base` into a state array leaves it equal to the specification fold |
| CryptoNight.CryptonightHash | src/crypto/CryptoNight_x86.h:351-438 | `cryptonight_hash` outputs the specification hash of the first `(int) size` input bytes, the length keccak receives after the narrowing, in both branches |
| CryptoNight.Squeeze | src/crypto/CryptoNight_x86.h:436-437 | keccak-f on the state, then the final hash chosen by the index |
| CryptoNight.DoubleLanes | src/crypto/CryptoNight_x86.h:452-586 | explode of both lanes, the double mixer and implode of both lanes leave the two states equal to the two-lane specification |
| CryptoNight.DoubleHashIsTwoHashes | src/crypto/CryptoNight_x86.h:441-593 | the two-lane hash is the single-lane hash of the first input followed by that of the second |
| CryptoNight.HashPair | src/crypto/CryptoNight_x86.h:441-593 | the double-hash pipeline on two inputs, lane 1 in scratchpad `memory + MEM`, outputs the single hash of the first input followed by that of the second |
| CryptoNight.CryptonightDoubleHash | src/crypto/CryptoNight_x86.h:441-593 | the two inputs are the `(int) size` bytes from input and from input + size; output bytes 0–31 are the single hash of the first and bytes 32–63 that of the second |
| Hashrate.Hashrate.constructor | src/workers/Hashrate.cpp:46-62 | after construction every count and timestamp slot of every thread, the baseline slot at kBucketSize included, is zero; every top is 0; highest and average are 0 |
| Hashrate.ZeroRow | src/workers/Hashrate.cpp:60-61 | the memset zeroes one thread's row and keeps the others |
| Hashrate.Hashrate.Add | src/workers/Hashrate.cpp:137-149 | `add` changes thread t's ring into Push of the sample and changes no other thread's ring or top |
| Hashrate.SetCell | src/workers/Hashrate.cpp:140-145 | one array write changes one cell of one thread's row |
| Hashrate.Push | src/workers/Hashrate.cpp:137-149 | adding a sample keeps top below kBucketSize |
| Hashrate.PushTop | src/workers/Hashrate.cpp:148 | `(top + 1) & kBucketMask` is (top + 1) mod kBucketSize |
| Hashrate.PushSlots | src/workers/Hashrate.cpp:137-149 | add writes the sample at slot top, writes the baseline slot exactly when its timestamp is 0 and the count is positive, and keeps every other slot |
| Hashrate.BaselineStays | src/workers/Hashrate.cpp:143-146 | once the baseline slot has a nonzero timestamp, no sequence of adds changes it |
| Hashrate.PushAllTop | src/workers/Hashrate.cpp:148 | after n adds, top is (top + n) mod kBucketSize |
| Hashrate.RingHoldsSample | src/workers/Hashrate.cpp:137-149 | after a sequence of adds, sample k sits at slot (top + k) mod kBucketSize if no more than kBucketSize samples came after it (itself included); older samples are overwritten |
| Hashrate.RingHoldsLastSamples | src/workers/Hashrate.cpp:137-149 | after any sequence of adds, the ring holds the last kBucketSize samples in order |
| Hashrate.BackIsMod | src/workers/Hashrate.cpp:101 | the slot `(top - i) & kBucketMask`, with the subtraction wrapping, is (top − i) mod kBucketSize |
| Hashrate.FirstStop | src/workers/Hashrate.cpp:100-117 | the visit at which the scan leaves the loop is the first one, before kBucketSize, whose slot is empty or older than the window; every earlier visit continues the loop |
| Hashrate.Scan | src/workers/Hashrate.cpp:90-134 | when calc has a pair, the latest sample is the one just before top and has a nonzero timestamp, and the two timestamps differ |
| Hashrate.ScanSound | src/workers/Hashrate.cpp:100-133 | when calc has a pair, the earliest sample is a visited slot j, 2 ≤ j < kBucketSize, that is nonempty and older than the window, and every slot between latest and earliest is nonempty and inside the window |
| Hashrate.ScanFinds | src/workers/Hashrate.cpp:100-133 | conversely, when the latest slot is nonempty and such an earliest slot exists with another timestamp, calc returns exactly that pair |
| Hashrate.LatestIsLastAdded | src/workers/Hashrate.cpp:100-110 | after `add`, the first sample the scan visits is the one just added |
| Hashrate.Hashrate.Calc | src/workers/Hashrate.cpp:90-134 | the backward loop, with its breaks, returns the pair of the specification scan of the thread's ring, or none where calc returns NaN |
| Hashrate.TotalRateDefined | src/workers/Hashrate.cpp:193-205 | the `updateAverage` sum is a number exactly when every thread has nonzero baseline and latest stamps with baseline < latest |
| Hashrate.TotalRateStaysNaN | src/workers/Hashrate.cpp:201-204 | once one thread gives NaN the whole sum is NaN, so the `break` loses nothing |
| Hashrate.Hashrate.SumRates | src/workers/Hashrate.cpp:189-205 | the loop of `updateAverage` computes the specification sum over all threads |
| Hashrate.Hashrate.RateOf | src/workers/Hashrate.cpp:194-204 | one thread's term: hashes per second between the baseline slot and slot `(top - 1) & kBucketMask`, or NaN when the guard fails |
| Hashrate.Hashrate.UpdateAverage | src/workers/Hashrate.cpp:187-209 | `m_average` becomes the sum when the sum is normal, and is unchanged otherwise |
| Hashrate.Hashrate.UpdateHighest | src/workers/Hashrate.cpp:179-184 | `m_highest` becomes the new rate when that rate is normal and larger, is unchanged otherwise, and never decreases |

## Left out

- The AES round (section 5.1 of FIPS-197), `_mm_aeskeygenassist_si128`, keccak, keccak-f[1600] (section 3 of FIPS 202) and the four final hashes (BLAKE-256, Groestl, JH, Skein) are function parameters. Their internals are outside the model.
- The software AES of `soft_aes.h` is not part of this model. The software and AES-NI branches are given the same round and keygenassist functions; that `soft_aesenc`, `soft_aes_round` and `soft_aeskeygenassist` agree with the instructions is assumed, not proved.
- `soft_aes_round` is taken to apply one round to each of the eight blocks of a chunk.
- SIMD register types, alignment, `_mm_load`/`_mm_store`, `reinterpret_cast` views and `__restrict__` are not modelled. The state is 25 64-bit words, the scratchpad is an array of 16-byte blocks, and lanes 0 and 1 are two offsets into one array.
- Scratchpad.XorIntoData: the software implode XORs 32 32-bit words. The model XORs the same bytes as sixteen 64-bit words, which gives the same bytes.
- CryptoNight.CryptonightHash: a size whose `(int)` narrowing is negative (size mod 2^32 ≥ 2^31) is excluded by a precondition, because keccak's behaviour on a negative length is not part of the model.
- CryptoNight.CryptonightDoubleHash: the same exclusion of a negative narrowed length applies; the narrowed length is the parameter `len`, tied to size by a precondition.
- The input buffer and the hashed input are sequences: the source reads them through `const` pointers. The output is returned as a value rather than written through `output`.
- The `cryptonight_ctx` layout is not modelled. `state0`, `state1` and `memory` are separate arrays, and the double hash requires the two state arrays to be distinct.
- CryptoNight.ValidConfig is a precondition on the template constants MEM and MASK: MEM a multiple of 128, MASK with its low four bits clear, and MASK + 16 ≤ MEM. The source relies on its own instantiations to meet it.
- The real parameter values (a 2 MiB scratchpad, 2^19 iterations) are not fixed; MEM, MASK and ITERATIONS stay symbolic.
- src/workers/Hashrate.h is not part of this model. kBucketSize is 2^bits with bits ≤ 32, and kBucketMask is kBucketSize − 1.
- Hashrate.Hashrate.Calc: the clock read of `calc(threadId, ms)` is the parameter `now`. The result is the selected (latest, earliest) pair, or none where the source returns NaN; the final floating-point division is not modelled.
- The summing `calc(ms)`, the libuv report timer (`onReport`, `stop`), `print`, `format`, the `Options` singleton and `new[]` allocation are not modelled.
- Hashrate.Hashrate.UpdateAverage: doubles are reals, `nan("")` is a separate value and `isnormal` means "a number other than zero". Infinities, subnormals and rounding are not modelled.
- Hashrate.Hashrate.UpdateHighest: the same reading of doubles and `isnormal` applies.
- Hashrate.Hashrate.RateOf: the same reading of doubles applies to the per-thread quotient.
