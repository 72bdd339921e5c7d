/** The hashrate counter of `src/workers/Hashrate.cpp`. Each mining thread
  * owns a ring of kBucketSize (hash count, millisecond timestamp) samples,
  * written at `top` and advanced with the mask kBucketSize - 1, plus one
  * more slot, at index kBucketSize, that keeps the first sample with a
  * nonzero count as a baseline. kBucketSize is 2^bits.
  */
module Hashrate {
  import opened Bits

  /** One sample: the thread's running hash count and its timestamp. */
  datatype Sample = Sample(count: u64, stamp: u64)

  /** The pair `calc(threadId, ms)` divides: the latest sample and the
    * earliest one older than the window. */
  datatype Window = Window(latest: Sample, earliest: Sample)

  datatype Option<T> = None | Some(value: T)

  /** A hashrate: a number, or `nan("")`. */
  datatype Rate = NaN | Value(v: real)

  /** `isnormal(x)` for the values the model computes: a number other than
    * zero. */
  predicate IsNormal(r: Rate)
  {
    r.Value? && r.v != 0.0
  }

  /** One thread's buffers: kBucketSize + 1 counts and timestamps, and
    * `m_top[threadId]`. */
  datatype Ring = Ring(counts: seq<u64>, stamps: seq<u64>, top: nat)

  predicate ValidRing(r: Ring, bits: nat)
  {
    bits <= 32 && |r.counts| == Pow2(bits) + 1 && |r.stamps| == Pow2(bits) + 1 && r.top < Pow2(bits)
  }

  /** The slot `(top - i) & kBucketMask`, with the subtraction wrapping at
    * 2^width (64 for the size_t of `calc`, 32 for the uint32_t of
    * `updateAverage`): i slots back from top, around the ring. */
  function Back(top: nat, i: nat, bits: nat, width: nat): (j: nat)
    requires bits <= 32 <= width
    ensures j < Pow2(bits)
  {
    AndBelow((top - i) % Pow2(width), Pow2(bits) - 1);
    AndV((top - i) % Pow2(width), Pow2(bits) - 1)
  }

  /** The masked, wrapped subtraction is subtraction modulo kBucketSize. */
  lemma BackIsMod(top: nat, i: nat, bits: nat, width: nat)
    requires bits <= 32 <= width
    ensures Back(top, i, bits, width) == (top - i) % Pow2(bits)
  {
    WrapThenMask(top - i, width, bits);
  }

  // ---------------------------------------------------------------------
  // add

  /** `add(threadId, count, timestamp)` on one thread's ring. */
  function Push(r: Ring, bits: nat, s: Sample): (r': Ring)
    requires ValidRing(r, bits)
    ensures ValidRing(r', bits)
  {
    var size := Pow2(bits);
    var counts, stamps := r.counts[r.top := s.count], r.stamps[r.top := s.stamp];
    var base := stamps[size] == 0 && s.count > 0;
    NextTop(r.top, bits);
    Ring(if base then counts[size := s.count] else counts,
         if base then stamps[size := s.stamp] else stamps,
         And64(r.top + 1, size - 1))
  }

  /** `(top + 1) & kBucketMask` is the next slot around the ring. */
  lemma NextTop(top: nat, bits: nat)
    requires bits <= 32 && top < Pow2(bits)
    ensures Pow2(bits) <= TWO_32
    ensures And64(top + 1, Pow2(bits) - 1) == (top + 1) % Pow2(bits)
  {
    Pow2Mono(bits, 32);
    Pow2Constants();
    AndLowMask(top + 1, bits);
  }

  /** add moves top to the next slot around the ring. */
  lemma PushTop(r: Ring, bits: nat, s: Sample)
    requires ValidRing(r, bits)
    ensures Push(r, bits, s).top == (r.top + 1) % Pow2(bits)
  {
    NextTop(r.top, bits);
  }

  /** The ring after the samples ss are added in order. */
  function PushAll(r: Ring, bits: nat, ss: seq<Sample>): (r': Ring)
    requires ValidRing(r, bits)
    ensures ValidRing(r', bits)
    decreases |ss|
  {
    if |ss| == 0 then r else Push(PushAll(r, bits, ss[..|ss| - 1]), bits, ss[|ss| - 1])
  }

  /** The sample in slot j. */
  function SlotSample(r: Ring, j: nat): Sample
    requires j < |r.counts| && j < |r.stamps|
  {
    Sample(r.counts[j], r.stamps[j])
  }

  /** add writes the sample at top, and touches the baseline slot only to
    * set it, and only while it is empty and the count is nonzero; every
    * other slot is kept. */
  lemma PushSlots(r: Ring, bits: nat, s: Sample)
    requires ValidRing(r, bits)
    ensures SlotSample(Push(r, bits, s), r.top) == s
    ensures SlotSample(Push(r, bits, s), Pow2(bits))
         == if r.stamps[Pow2(bits)] == 0 && s.count > 0 then s else SlotSample(r, Pow2(bits))
    ensures forall j :: 0 <= j < Pow2(bits) && j != r.top ==> SlotSample(Push(r, bits, s), j) == SlotSample(r, j)
  {
  }

  /** Once the baseline slot holds a sample, no later add changes it. */
  lemma {:induction false} BaselineStays(r: Ring, bits: nat, ss: seq<Sample>)
    requires ValidRing(r, bits) && r.stamps[Pow2(bits)] != 0
    ensures SlotSample(PushAll(r, bits, ss), Pow2(bits)) == SlotSample(r, Pow2(bits))
    decreases |ss|
  {
    if |ss| > 0 {
      BaselineStays(r, bits, ss[..|ss| - 1]);
      PushSlots(PushAll(r, bits, ss[..|ss| - 1]), bits, ss[|ss| - 1]);
    }
  }

  /** After n adds, top has moved n slots around the ring. */
  lemma {:induction false} PushAllTop(r: Ring, bits: nat, ss: seq<Sample>)
    requires ValidRing(r, bits)
    ensures PushAll(r, bits, ss).top == (r.top + |ss|) % Pow2(bits)
    decreases |ss|
  {
    if |ss| > 0 {
      var n: nat := |ss| - 1;
      var size := Pow2(bits);
      var prev := PushAll(r, bits, ss[..n]);
      assert PushAll(r, bits, ss) == Push(prev, bits, ss[n]);
      PushAllTop(r, bits, ss[..n]);
      PushTop(prev, bits, ss[n]);
      ModAdd(r.top, n, size);
      assert Push(prev, bits, ss[n]).top == ((r.top + n) % size + 1) % size;
      assert r.top + n + 1 == r.top + |ss|;
      assert PushAll(r, bits, ss).top == (r.top + |ss|) % size;
    } else {
      assert PushAll(r, bits, ss) == r;
      DivModUnique(r.top, Pow2(bits), 0, r.top);
      assert r.top == (r.top + |ss|) % Pow2(bits);
    }
  }

  /** One slot of the ring after one add: the slot at top holds the new
    * sample, every other slot below kBucketSize is kept. */
  lemma PushSlot(r: Ring, bits: nat, s: Sample, j: nat)
    requires ValidRing(r, bits) && j < Pow2(bits)
    ensures SlotSample(Push(r, bits, s), j) == if j == r.top then s else SlotSample(r, j)
  {
    PushSlots(r, bits, s);
  }

  /** PushSlot for the last of several adds. */
  lemma PushAllSlot(r: Ring, bits: nat, ss: seq<Sample>, j: nat)
    requires ValidRing(r, bits) && |ss| > 0 && j < Pow2(bits)
    ensures var prev := PushAll(r, bits, ss[..|ss| - 1]);
      SlotSample(PushAll(r, bits, ss), j) == if j == prev.top then ss[|ss| - 1] else SlotSample(prev, j)
  {
    PushSlot(PushAll(r, bits, ss[..|ss| - 1]), bits, ss[|ss| - 1], j);
  }

  /** After n adds, the slot k places after the old top holds the k-th
    * sample added, if it is one of the last kBucketSize samples: older
    * ones have been overwritten. */
  lemma {:induction false} RingHoldsSample(r: Ring, bits: nat, ss: seq<Sample>, k: nat)
    requires ValidRing(r, bits) && k < |ss| && |ss| - k <= Pow2(bits)
    ensures SlotSample(PushAll(r, bits, ss), (r.top + k) % Pow2(bits)) == ss[k]
    decreases |ss|
  {
    var size := Pow2(bits);
    var n: nat := |ss| - 1;
    var prev := PushAll(r, bits, ss[..n]);
    var slot := (r.top + k) % size;
    PushAllTop(r, bits, ss[..n]);
    assert prev.top == (r.top + n) % size;
    PushAllSlot(r, bits, ss, slot);
    if k < n {
      ModDistinct(r.top + k, r.top + n, size);
      assert slot != prev.top;
      RingHoldsSample(r, bits, ss[..n], k);
      assert SlotSample(prev, slot) == ss[..n][k] == ss[k];
    } else {
      assert k == n && slot == prev.top;
    }
  }

  /** RingHoldsSample for every one of the last kBucketSize samples. */
  lemma RingHoldsLastSamples(r: Ring, bits: nat, ss: seq<Sample>)
    requires ValidRing(r, bits)
    ensures forall k :: 0 <= k < |ss| && |ss| - k <= Pow2(bits) ==>
      SlotSample(PushAll(r, bits, ss), (r.top + k) % Pow2(bits)) == ss[k]
  {
    forall k | 0 <= k < |ss| && |ss| - k <= Pow2(bits)
      ensures SlotSample(PushAll(r, bits, ss), (r.top + k) % Pow2(bits)) == ss[k]
    {
      RingHoldsSample(r, bits, ss, k);
    }
  }

  /** ((a + n) mod s + 1) mod s is (a + n + 1) mod s. */
  lemma ModAdd(a: nat, n: nat, s: nat)
    requires s > 0
    ensures ((a + n) % s + 1) % s == (a + n + 1) % s
  {
    var q := (a + n) / s;
    DivModUnique(a + n + 1 - s * q, s, ((a + n) % s + 1) / s, ((a + n) % s + 1) % s);
    assert a + n + 1 == s * (q + ((a + n) % s + 1) / s) + ((a + n) % s + 1) % s;
    DivModUnique(a + n + 1, s, q + ((a + n) % s + 1) / s, ((a + n) % s + 1) % s);
  }

  /** Two slots fewer than s apart are different slots of a ring of s. */
  lemma ModDistinct(x: nat, y: nat, s: nat)
    requires x < y < x + s
    ensures x % s != y % s
  {
    var q, r := x / s, x % s;
    if r + (y - x) < s {
      DivModUnique(y, s, q, r + (y - x));
    } else {
      DivModUnique(y, s, q + 1, r + (y - x) - s);
    }
  }

  // ---------------------------------------------------------------------
  // calc(threadId, ms)

  /** The sample i slots back from top: the i-th one the backward scan of
    * `calc` visits. */
  function Visit(r: Ring, bits: nat, i: nat): Sample
    requires ValidRing(r, bits)
  {
    SlotSample(r, Back(r.top, i, bits, 64))
  }

  /** `now - ts > ms` in uint64_t arithmetic: a timestamp after now wraps
    * to a large age. */
  predicate OlderThan(s: Sample, ms: u64, now: u64)
  {
    Sub64(now, s.stamp) > ms
  }

  /** The scan leaves the loop at visit i (once the latest sample is
    * taken): an empty slot, or a sample older than the window. */
  predicate Stops(r: Ring, bits: nat, ms: u64, now: u64, i: nat)
    requires ValidRing(r, bits)
  {
    Visit(r, bits, i).stamp == 0 || OlderThan(Visit(r, bits, i), ms, now)
  }

  /** The first visit from i on, before kBucketSize, at which the scan
    * stops; kBucketSize if there is none. */
  function FirstStop(r: Ring, bits: nat, ms: u64, now: u64, i: nat): (j: nat)
    requires ValidRing(r, bits) && i <= Pow2(bits)
    ensures i <= j <= Pow2(bits)
    ensures j < Pow2(bits) ==> Stops(r, bits, ms, now, j)
    ensures forall k :: i <= k < j ==> !Stops(r, bits, ms, now, k)
    decreases Pow2(bits) - i
  {
    if i == Pow2(bits) || Stops(r, bits, ms, now, i) then i else FirstStop(r, bits, ms, now, i + 1)
  }

  /** What `calc(threadId, ms)` divides, or None where it returns NaN: the
    * latest sample is the one just before top, and must be nonempty; the
    * earliest is where the scan stops, and must be a nonempty sample
    * older than the window, with another timestamp than the latest. */
  function Scan(r: Ring, bits: nat, ms: u64, now: u64): (w: Option<Window>)
    requires ValidRing(r, bits)
    ensures w.Some? ==> w.value.latest == Visit(r, bits, 1) && w.value.latest.stamp != 0
    ensures w.Some? ==> w.value.latest.stamp != w.value.earliest.stamp
  {
    var size := Pow2(bits);
    if size <= 1 || Visit(r, bits, 1).stamp == 0 then None
    else
      var j := FirstStop(r, bits, ms, now, 2);
      if j == size || Visit(r, bits, j).stamp == 0 || Visit(r, bits, j).stamp == Visit(r, bits, 1).stamp then None
      else Some(Window(Visit(r, bits, 1), Visit(r, bits, j)))
  }

  /** Visit j is the earliest sample: nonempty and older than the window,
    * and every visit between the latest and it nonempty and inside the
    * window. */
  predicate Earliest(r: Ring, bits: nat, ms: u64, now: u64, j: nat)
    requires ValidRing(r, bits)
  {
    Visit(r, bits, j).stamp != 0 && OlderThan(Visit(r, bits, j), ms, now) &&
    forall k :: 2 <= k < j ==> Visit(r, bits, k).stamp != 0 && !OlderThan(Visit(r, bits, k), ms, now)
  }

  /** A window Scan returns is the latest sample and the earliest one, as
    * Earliest says. */
  lemma ScanSound(r: Ring, bits: nat, ms: u64, now: u64)
    requires ValidRing(r, bits) && Scan(r, bits, ms, now).Some?
    ensures exists j :: 2 <= j < Pow2(bits) && Scan(r, bits, ms, now).value.earliest == Visit(r, bits, j)
                        && Earliest(r, bits, ms, now, j)
  {
    var j := FirstStop(r, bits, ms, now, 2);
    assert Scan(r, bits, ms, now).value.earliest == Visit(r, bits, j);
    assert Stops(r, bits, ms, now, j) && Visit(r, bits, j).stamp != 0;
    forall k | 2 <= k < j
      ensures Visit(r, bits, k).stamp != 0 && !OlderThan(Visit(r, bits, k), ms, now)
    {
      assert !Stops(r, bits, ms, now, k);
    }
  }

  /** The converse of ScanSound: whenever the latest sample is
    * nonempty and some visit is the earliest sample with another
    * timestamp, Scan finds exactly that pair. */
  lemma ScanFinds(r: Ring, bits: nat, ms: u64, now: u64, j: nat)
    requires ValidRing(r, bits) && 2 <= j < Pow2(bits)
    requires Visit(r, bits, 1).stamp != 0 && Earliest(r, bits, ms, now, j)
    requires Visit(r, bits, j).stamp != Visit(r, bits, 1).stamp
    ensures Scan(r, bits, ms, now) == Some(Window(Visit(r, bits, 1), Visit(r, bits, j)))
  {
    var f := FirstStop(r, bits, ms, now, 2);
    assert Stops(r, bits, ms, now, j);
    assert f < Pow2(bits) ==> Stops(r, bits, ms, now, f);
  }

  /** The latest sample calc reads is the one the last add wrote. */
  lemma LatestIsLastAdded(r: Ring, bits: nat, s: Sample)
    requires ValidRing(r, bits)
    ensures Visit(Push(r, bits, s), bits, 1) == s
  {
    var size := Pow2(bits);
    PushTop(r, bits, s);
    BackIsMod(Push(r, bits, s).top, 1, bits, 64);
    if r.top + 1 < size {
      DivModUnique(r.top + 1, size, 0, r.top + 1);
      DivModUnique(r.top, size, 0, r.top);
    } else {
      DivModUnique(r.top + 1, size, 1, 0);
      DivModUnique(-1, size, -1, r.top);
    }
    PushSlots(r, bits, s);
  }

  // ---------------------------------------------------------------------
  // updateAverage

  /** Thread t's contribution to `updateAverage`: hashes per second
    * between the baseline slot and the slot just before top, or NaN
    * unless both timestamps are nonzero and the baseline is the older. */
  function ThreadRate(r: Ring, bits: nat): Rate
    requires ValidRing(r, bits)
  {
    var size := Pow2(bits);
    var idx := Back(r.top, 1, bits, 32);
    var t1, t2 := r.stamps[size], r.stamps[idx];
    if t1 != 0 && t2 != 0 && t1 < t2 then
      Value(Sub64(r.counts[idx], r.counts[size]) as real / ((t2 - t1) as real / 1000.0))
    else NaN
  }

  /** The sum of the rates of the threads, NaN as soon as one is NaN. */
  function TotalRate(rs: seq<Ring>, bits: nat): Rate
    requires forall t :: 0 <= t < |rs| ==> ValidRing(rs[t], bits)
    decreases |rs|
  {
    if |rs| == 0 then Value(0.0)
    else
      var a, b := TotalRate(rs[..|rs| - 1], bits), ThreadRate(rs[|rs| - 1], bits);
      if a.NaN? || b.NaN? then NaN else Value(a.v + b.v)
  }

  /** The sum is a number exactly when every thread's rate is. */
  lemma {:induction false} TotalRateDefined(rs: seq<Ring>, bits: nat)
    requires forall t :: 0 <= t < |rs| ==> ValidRing(rs[t], bits)
    ensures TotalRate(rs, bits).Value? <==> forall t :: 0 <= t < |rs| ==> ThreadRate(rs[t], bits).Value?
    decreases |rs|
  {
    if |rs| > 0 {
      var n: nat := |rs| - 1;
      var a, b := TotalRate(rs[..n], bits), ThreadRate(rs[n], bits);
      assert TotalRate(rs, bits).Value? <==> a.Value? && b.Value?;
      TotalRateDefined(rs[..n], bits);
      assert a.Value? <==> forall t :: 0 <= t < n ==> ThreadRate(rs[..n][t], bits).Value?;
      assert forall t :: 0 <= t < n ==> rs[..n][t] == rs[t];
    }
  }

  /** One more thread added to the sum. */
  lemma TotalRateNext(rs: seq<Ring>, bits: nat, i: nat)
    requires forall t :: 0 <= t < |rs| ==> ValidRing(rs[t], bits)
    requires i < |rs|
    ensures TotalRate(rs[..i + 1], bits)
         == var a, b := TotalRate(rs[..i], bits), ThreadRate(rs[i], bits);
            if a.NaN? || b.NaN? then NaN else Value(a.v + b.v)
  {
    assert rs[..i + 1][..i] == rs[..i];
  }

  /** Once the sum over the first i threads is NaN, so is the whole sum. */
  lemma {:induction false} TotalRateStaysNaN(rs: seq<Ring>, bits: nat, i: nat)
    requires forall t :: 0 <= t < |rs| ==> ValidRing(rs[t], bits)
    requires i <= |rs| && TotalRate(rs[..i], bits).NaN?
    ensures TotalRate(rs, bits).NaN?
    decreases |rs| - i
  {
    if i < |rs| {
      TotalRateNext(rs, bits, i);
      TotalRateStaysNaN(rs, bits, i + 1);
    } else {
      assert rs[..i] == rs;
    }
  }

  // ---------------------------------------------------------------------
  // The counter

  /** `Hashrate`: the per-thread rings, `m_highest` and `m_average`.
    * `m_counts[t][j]` is counts[t, j] and `m_timestamps[t][j]` is
    * timestamps[t, j]. */
  class Hashrate {
    const threads: nat
    const bits: nat
    const counts: array2<u64>
    const timestamps: array2<u64>
    const top: array<u32>
    var highest: real
    var average: real

    /** The shape the constructor gives, and top inside the ring. */
    ghost predicate Valid()
      reads top
    {
      bits <= 32 &&
      counts.Length0 == threads && counts.Length1 == Pow2(bits) + 1 &&
      timestamps.Length0 == threads && timestamps.Length1 == Pow2(bits) + 1 &&
      top.Length == threads && counts != timestamps &&
      forall t :: 0 <= t < threads ==> top[t] < Pow2(bits)
    }

    /** Thread t's ring as a value. */
    ghost function RingOf(t: nat): (r: Ring)
      requires Valid() && t < threads
      reads counts, timestamps, top
      ensures ValidRing(r, bits)
    {
      Ring(Row(counts, t), Row(timestamps, t), top[t])
    }

    /** All threads' rings. */
    ghost function Rings(): (rs: seq<Ring>)
      requires Valid()
      reads counts, timestamps, top
      ensures |rs| == threads && forall t :: 0 <= t < threads ==> rs[t] == RingOf(t) && ValidRing(rs[t], bits)
    {
      seq(threads, t requires 0 <= t < threads && Valid() reads counts, timestamps, top => RingOf(t))
    }

    /** `Hashrate(threads)`: every count and timestamp of every thread,
      * the baseline slot included, is zero, and every top is 0. */
    constructor(threads: nat, bits: nat)
      requires bits <= 32
      ensures Valid() && this.threads == threads && this.bits == bits
      ensures forall t, j :: 0 <= t < threads && 0 <= j <= Pow2(bits) ==> counts[t, j] == 0 && timestamps[t, j] == 0
      ensures forall t :: 0 <= t < threads ==> top[t] == 0
      ensures highest == 0.0 && average == 0.0
    {
      this.threads := threads;
      this.bits := bits;
      counts := new u64[threads, Pow2(bits) + 1];
      timestamps := new u64[threads, Pow2(bits) + 1];
      top := new u32[threads];
      highest := 0.0;
      average := 0.0;
      new;
      var i := 0;
      while i < threads
        invariant 0 <= i <= threads
        invariant forall t, j :: 0 <= t < i && 0 <= j <= Pow2(bits) ==> counts[t, j] == 0 && timestamps[t, j] == 0
        invariant forall t :: 0 <= t < i ==> top[t] == 0
        invariant highest == 0.0 && average == 0.0
      {
        top[i] := 0;
        ZeroRow(counts, i);
        ZeroRow(timestamps, i);
        i := i + 1;
      }
    }

    /** `add(threadId, count, timestamp)`: thread threadId's ring becomes
      * Push of the sample; every other thread's is unchanged. */
    method Add(threadId: nat, count: u64, timestamp: u64)
      requires Valid() && threadId < threads
      modifies counts, timestamps, top
      ensures Valid()
      ensures RingOf(threadId) == Push(old(RingOf(threadId)), bits, Sample(count, timestamp))
      ensures forall t :: 0 <= t < threads && t != threadId ==> RingOf(t) == old(RingOf(t))
    {
      var size := Pow2(bits);
      var t := top[threadId] as nat;
      SetCell(counts, threadId, t, count);
      SetCell(timestamps, threadId, t, timestamp);
      if timestamps[threadId, size] == 0 && count > 0 {
        SetCell(timestamps, threadId, size, timestamp);
        SetCell(counts, threadId, size, count);
      }
      NextTop(t, bits);
      top[threadId] := And64(t + 1, size - 1);
    }

    /** `calc(threadId, ms)` up to the division: the window Scan selects,
      * or None where calc returns NaN. `now` is the clock reading. */
    method Calc(threadId: nat, ms: u64, now: u64) returns (w: Option<Window>)
      requires Valid() && threadId < threads
      ensures w == Scan(RingOf(threadId), bits, ms, now)
    {
      ghost var r := RingOf(threadId);
      var size := Pow2(bits);
      var latestStamp, latestCount, earliestStamp, earliestCount := 0, 0, 0, 0;
      var i := 1;
      while i < size
        invariant 1 <= i <= size && earliestStamp == 0
        invariant i == 1 ==> latestStamp == 0
        invariant i > 1 ==> Sample(latestCount, latestStamp) == Visit(r, bits, 1) && latestStamp != 0
        invariant i > 1 ==> FirstStop(r, bits, ms, now, 2) == FirstStop(r, bits, ms, now, i)
      {
        var idx := Back(top[threadId] as nat, i, bits, 64);
        if timestamps[threadId, idx] == 0 {
          break;
        }
        if latestStamp == 0 {
          latestStamp := timestamps[threadId, idx];
          latestCount := counts[threadId, idx];
        } else if Sub64(now, timestamps[threadId, idx]) > ms {
          earliestStamp := timestamps[threadId, idx];
          earliestCount := counts[threadId, idx];
          break;
        }
        i := i + 1;
      }
      if earliestStamp == 0 || latestStamp == 0 {
        return None;
      }
      if latestStamp == earliestStamp {
        return None;
      }
      w := Some(Window(Sample(latestCount, latestStamp), Sample(earliestCount, earliestStamp)));
    }

    /** `updateHighest(hashrate)`: m_highest only ever rises, and only to a
      * normal rate. */
    method UpdateHighest(hashrate: Rate)
      modifies this`highest
      ensures highest == if IsNormal(hashrate) && hashrate.v > old(highest) then hashrate.v else old(highest)
      ensures highest >= old(highest)
    {
      if IsNormal(hashrate) && hashrate.v > highest {
        highest := hashrate.v;
      }
    }

    /** `updateAverage()`: m_average becomes the sum of the threads' rates
      * when every thread has a baseline older than its latest sample and
      * the sum is normal, and is kept otherwise. */
    method UpdateAverage()
      requires Valid()
      modifies this`average
      ensures average == if IsNormal(TotalRate(Rings(), bits)) then TotalRate(Rings(), bits).v else old(average)
    {
      var result := SumRates();
      if IsNormal(result) {
        average := result.v;
      }
    }

    /** The loop of `updateAverage`: it adds up the threads' rates and
      * gives up with NaN at the first thread without a usable pair. */
    method SumRates() returns (result: Rate)
      requires Valid()
      ensures result == TotalRate(Rings(), bits)
    {
      ghost var rs := Rings();
      result := Value(0.0);
      var i := 0;
      while i < threads
        invariant 0 <= i <= threads
        invariant result == TotalRate(rs[..i], bits) && result.Value?
        invariant Rings() == rs
      {
        var rate := RateOf(i);
        assert rate == ThreadRate(rs[i], bits);
        TotalRateNext(rs, bits, i);
        if rate.NaN? {
          result := NaN;
          TotalRateStaysNaN(rs, bits, i + 1);
          assert result == TotalRate(rs, bits);
          break;
        }
        result := Value(result.v + rate.v);
        i := i + 1;
      }
      assert i == threads ==> rs[..i] == rs;
    }

    /** One pass of that loop: the rate between thread i's baseline slot
      * and the slot just before its top, when t1 && t2 && t1 < t2. */
    method RateOf(i: nat) returns (rate: Rate)
      requires Valid() && i < threads
      ensures rate == ThreadRate(RingOf(i), bits)
    {
      var size := Pow2(bits);
      var idx := Back(top[i] as nat, 1, bits, 32);
      var t1, t2 := timestamps[i, size], timestamps[i, idx];
      if t1 != 0 && t2 != 0 && t1 < t2 {
        var hashes := Sub64(counts[i, idx], counts[i, size]);
        rate := Value(hashes as real / ((t2 - t1) as real / 1000.0));
      } else {
        rate := NaN;
      }
    }
  }

  /** Row t of a two-dimensional array, as a sequence. */
  ghost function Row(a: array2<u64>, t: nat): (row: seq<u64>)
    requires t < a.Length0
    reads a
    ensures |row| == a.Length1
  {
    seq(a.Length1, j requires 0 <= j < a.Length1 reads a => a[t, j])
  }

  /** `a[t][j] = v`: row t gets v at j, every other row is kept. */
  method SetCell(a: array2<u64>, t: nat, j: nat, v: u64)
    requires t < a.Length0 && j < a.Length1
    modifies a
    ensures Row(a, t) == old(Row(a, t))[j := v]
    ensures forall u :: 0 <= u < a.Length0 && u != t ==> Row(a, u) == old(Row(a, u))
  {
    a[t, j] := v;
  }

  /** `memset(row, 0, ...)`: row i of a to zero, the other rows kept. */
  method ZeroRow(a: array2<u64>, i: nat)
    requires i < a.Length0
    modifies a
    ensures forall j :: 0 <= j < a.Length1 ==> a[i, j] == 0
    ensures forall t, j :: 0 <= t < a.Length0 && t != i && 0 <= j < a.Length1 ==> a[t, j] == old(a[t, j])
  {
    forall j | 0 <= j < a.Length1 {
      a[i, j] := 0;
    }
  }
}
