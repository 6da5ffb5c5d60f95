/** How partitions are dealt out: to workers, and within a worker to consumers,
    each of which owns one queue. */
module Routing {
  import opened Prelude

  datatype Dealt = Partitions(list: seq<int>) | InvalidArgument(message: string) | CounterOverflow

  // ------------------------------------------------------------------
  // Every step-th number from i on
  // ------------------------------------------------------------------

  ghost function Stride(i: int, step: int, end: int): seq<int>
    requires step > 0
    decreases end - i
  {
    if i >= end then [] else [i] + Stride(i + step, step, end)
  }

  /** The elements of a list at positions c, c + step, c + 2 * step, ... */
  ghost function Pick(list: seq<int>, c: nat, step: int): seq<int>
    requires step > 0
  {
    StrideRange(c, step, |list|);
    seq(|Stride(c, step, |list|)|, x requires 0 <= x < |Stride(c, step, |list|)| => list[Stride(c, step, |list|)[x]])
  }

  lemma {:induction false} StrideRange(i: int, step: int, end: int)
    requires step > 0
    ensures forall x :: 0 <= x < |Stride(i, step, end)| ==> i <= Stride(i, step, end)[x] < end
    ensures forall x, y :: 0 <= x < y < |Stride(i, step, end)| ==> Stride(i, step, end)[x] < Stride(i, step, end)[y]
    decreases end - i
  {
    if i < end {
      StrideRange(i + step, step, end);
    }
  }

  lemma {:induction false} StrideAt(i: int, step: int, end: int, x: nat)
    requires step > 0 && x < |Stride(i, step, end)|
    ensures Stride(i, step, end)[x] == i + x * step
    decreases x
  {
    if x > 0 {
      StrideAt(i + step, step, end, x - 1);
    }
  }

  lemma {:induction false} StrideEnd(i: int, step: int, end: int)
    requires step > 0
    ensures i + |Stride(i, step, end)| * step >= end
    decreases end - i
  {
    if i < end {
      StrideEnd(i + step, step, end);
    }
  }

  /** Appending the next number to the stride so far. */
  lemma {:induction false} StrideSnoc(i: int, step: int, k: int)
    requires step > 0 && k >= i && (k - i) % step == 0
    ensures Stride(i, step, k + step) == Stride(i, step, k) + [k]
    decreases k - i
  {
    if k == i {
      assert Stride(i + step, step, k + step) == [];
    } else {
      Euclid(k - i, step);
      StrideSnoc(i + step, step, k) by {
        assert k >= i + step && (k - (i + step)) % step == 0;
      }
    }
  }

  /** A positive multiple of step leaves a multiple when step is taken off. */
  lemma Euclid(d: int, step: int)
    requires step > 0 && d > 0 && d % step == 0
    ensures d >= step && (d - step) % step == 0
  {
    var m := d / step;
    assert d == m * step;
    assert m >= 1;
    assert d - step == (m - 1) * step;
    ModProduct(m - 1, 0, step);
  }

  lemma ModProduct(m: int, r: int, step: int)
    requires 0 <= r < step
    ensures (m * step + r) % step == r && (m * step + r) / step == m
  {
    var x := m * step + r;
    assert x == (x / step) * step + x % step;
    Product(x / step + 1, m, step);
    Product(m + 1, x / step, step);
  }

  /** Up to the same multiple the bound of a stride does not matter. */
  lemma StrideBound(i: int, step: int, k: int, end: int)
    requires step > 0 && i <= k && (k - i) % step == 0 && k - step < end <= k
    ensures Stride(i, step, end) == Stride(i, step, k)
    decreases k - i
  {
    if i < k {
      Euclid(k - i, step);
      StrideBound(i + step, step, k, end);
    }
  }

  // ------------------------------------------------------------------
  // The operations
  // ------------------------------------------------------------------

  const INT_LIMIT := 0x8000_0000

  predicate IsInt(x: int) {
    -INT_LIMIT <= x < INT_LIMIT
  }

  /** The loop counter, a signed 32-bit number, would have to go past its range
      to leave the loop. */
  ghost predicate Overflows(i: int, step: int, end: int)
    requires step > 0
  {
    i < end && i + |Stride(i, step, end)| * step >= INT_LIMIT
  }

  method WorkerPartitions(numWorkers: int, workerId: int, totalPartitions: int) returns (r: Dealt)
    requires IsInt(numWorkers) && IsInt(workerId) && IsInt(totalPartitions)
    ensures numWorkers <= 0 ==> r == InvalidArgument("received negative numWorkers")
    ensures numWorkers > 0 && Overflows(workerId, numWorkers, totalPartitions) ==> r == CounterOverflow
    ensures numWorkers > 0 && !Overflows(workerId, numWorkers, totalPartitions) ==>
              r == Partitions(Stride(workerId, numWorkers, totalPartitions))
  {
    if numWorkers <= 0 {
      return InvalidArgument("received negative numWorkers");
    }
    var result := [];
    var i := workerId;
    while i < totalPartitions
      invariant i >= workerId && (i - workerId) % numWorkers == 0 && i < INT_LIMIT
      invariant i - numWorkers < totalPartitions || i == workerId
      invariant result == Stride(workerId, numWorkers, i) && i == workerId + |result| * numWorkers
    {
      result := result + [i];
      StrideSnoc(workerId, numWorkers, i);
      NextMultiple(i - workerId, numWorkers);
      OneMore(|result| - 1, numWorkers);
      if i + numWorkers >= INT_LIMIT {
        StrideBound(workerId, numWorkers, i + numWorkers, totalPartitions);
        return CounterOverflow;
      }
      i := i + numWorkers;
    }
    if i > workerId {
      StrideBound(workerId, numWorkers, i, totalPartitions);
    }
    return Partitions(result);
  }

  /** A deal whose counts add up to less than the counter's range cannot go past it. */
  lemma CounterFits(i: int, step: int, end: int)
    requires step > 0 && end + step <= INT_LIMIT
    ensures !Overflows(i, step, end)
  {
    var n := |Stride(i, step, end)|;
    if n > 0 {
      StrideRange(i, step, end);
      StrideAt(i, step, end, n - 1);
      OneMore(n - 1, step);
    }
  }

  lemma NextMultiple(d: int, step: int)
    requires step > 0 && d % step == 0
    ensures (d + step) % step == 0
  {
    var m := d / step;
    assert d + step == (m + 1) * step;
    ModProduct(m + 1, 0, step);
  }

  /** The start position is the consumer's id converted to an unsigned 64-bit number. */
  function Unsigned64(x: int): nat {
    x % 0x1_0000_0000_0000_0000
  }

  method ConsumerPartitions(nConsumers: int, consumerId: int, workerPartitions: seq<int>) returns (r: Dealt)
    ensures nConsumers <= 0 ==> r == InvalidArgument("received negative nConsumers")
    ensures nConsumers > 0 ==> r == Partitions(Pick(workerPartitions, Unsigned64(consumerId), nConsumers))
  {
    if nConsumers <= 0 {
      return InvalidArgument("received negative nConsumers");
    }
    var result := [];
    var start := Unsigned64(consumerId);
    var i := start;
    ghost var positions := [];
    while i < |workerPartitions|
      invariant i >= start && (i - start) % nConsumers == 0
      invariant i - nConsumers < |workerPartitions| || i == start
      invariant positions == Stride(start, nConsumers, i)
      invariant |result| == |positions|
      invariant forall x :: 0 <= x < |positions| ==>
          0 <= positions[x] < |workerPartitions| && result[x] == workerPartitions[positions[x]]
    {
      result := result + [workerPartitions[i]];
      positions := positions + [i];
      StrideSnoc(start, nConsumers, i);
      NextMultiple(i - start, nConsumers);
      i := i + nConsumers;
    }
    if i > start {
      StrideBound(start, nConsumers, i, |workerPartitions|);
    }
    return Partitions(result);
  }

  /** The inner loop: partitionConsumer[p] becomes c for every p in mine. */
  method Assign(partitionConsumer: seq<int>, mine: seq<int>, c: int) returns (r: seq<int>)
    requires forall x :: 0 <= x < |mine| ==> 0 <= mine[x] < |partitionConsumer|
    ensures |r| == |partitionConsumer|
    ensures forall p :: 0 <= p < |r| ==> r[p] == if p in mine then c else partitionConsumer[p]
  {
    r := partitionConsumer;
    var i := 0;
    while i < |mine|
      invariant 0 <= i <= |mine| && |r| == |partitionConsumer|
      invariant forall p :: 0 <= p < |r| ==> r[p] == if p in mine[..i] then c else partitionConsumer[p]
    {
      r := r[mine[i] := c];
      i := i + 1;
    }
    assert mine[..|mine|] == mine;
  }

  /** The consumers' partition lists, and for each partition the consumer it
      belongs to, or -1 when it is another worker's. */
  method CreateConsumerQueues(partitions: seq<int>, numPartitions: nat, nConsumers: int)
    returns (consumerQueues: seq<seq<int>>, partitionConsumer: seq<int>)
    requires forall x :: 0 <= x < |partitions| ==> 0 <= partitions[x] < numPartitions
    requires forall x, y :: 0 <= x < y < |partitions| ==> partitions[x] != partitions[y]
    requires nConsumers < 0x8000_0000
    ensures |consumerQueues| == if nConsumers <= 0 then 0 else nConsumers
    ensures forall c :: 0 <= c < nConsumers ==> consumerQueues[c] == Pick(partitions, c, nConsumers)
    ensures |partitionConsumer| == numPartitions
    ensures nConsumers > 0 ==> forall x :: 0 <= x < |partitions| ==> partitionConsumer[partitions[x]] == x % nConsumers
    ensures forall p :: 0 <= p < numPartitions && (p !in partitions || nConsumers <= 0) ==> partitionConsumer[p] == -1
  {
    consumerQueues := [];
    partitionConsumer := seq(numPartitions, _ => -1);
    var c := 0;
    while c < nConsumers
      invariant c >= 0 && |consumerQueues| == c && (nConsumers > 0 ==> c <= nConsumers) && (nConsumers <= 0 ==> c == 0)
      invariant forall d :: 0 <= d < c ==> consumerQueues[d] == Pick(partitions, d, nConsumers)
      invariant |partitionConsumer| == numPartitions
      invariant nConsumers > 0 ==> forall x :: 0 <= x < |partitions| && x % nConsumers < c ==>
          partitionConsumer[partitions[x]] == x % nConsumers
      invariant forall p :: 0 <= p < numPartitions && (p !in partitions || c == 0) ==> partitionConsumer[p] == -1
    {
      var dealt := ConsumerPartitions(nConsumers, c, partitions);
      assert Unsigned64(c) == c;
      var mine := dealt.list;
      consumerQueues := consumerQueues + [mine];
      ghost var before := partitionConsumer;
      PickMembers(partitions, c, nConsumers);
      forall x | 0 <= x < |mine| ensures 0 <= mine[x] < numPartitions {
        assert mine[x] in partitions;
      }
      partitionConsumer := Assign(partitionConsumer, mine, c);
      forall x | 0 <= x < |partitions| && x % nConsumers < c + 1
        ensures partitionConsumer[partitions[x]] == x % nConsumers
      {
        if x % nConsumers != c {
          PickOthers(partitions, x, c, nConsumers);
        }
      }
      c := c + 1;
    }
    if nConsumers > 0 {
      forall x | 0 <= x < |partitions| ensures partitionConsumer[partitions[x]] == x % nConsumers {
        assert x % nConsumers < nConsumers;
      }
    }
  }

  // ------------------------------------------------------------------
  // Who gets what
  // ------------------------------------------------------------------

  lemma StrideIndex(w: nat, step: int, end: int, x: nat)
    requires 0 <= w < step && x < |Stride(w, step, end)|
    ensures var p := Stride(w, step, end)[x]; 0 <= p < end && p % step == w && p / step == x
  {
    StrideRange(w, step, end);
    StrideAt(w, step, end, x);
    ModProduct(x, w, step);
  }

  lemma StrideMembers(w: nat, step: int, end: int, p: int)
    requires 0 <= w < step
    ensures p in Stride(w, step, end) <==> 0 <= p < end && p % step == w
    ensures p in Stride(w, step, end) ==> p / step < |Stride(w, step, end)| && Stride(w, step, end)[p / step] == p
  {
    var s := Stride(w, step, end);
    if 0 <= p < end && p % step == w {
      Reaches(w, step, end, p);
      StrideAt(w, step, end, p / step);
      assert s[p / step] == p;
    } else if p in s {
      var x :| 0 <= x < |s| && s[x] == p;
      StrideIndex(w, step, end, x);
    }
  }

  lemma Reaches(w: nat, step: int, end: int, p: int)
    requires 0 <= w < step && 0 <= p < end && p % step == w
    ensures p / step < |Stride(w, step, end)|
  {
    StrideEnd(w, step, end);
    assert p == (p / step) * step + w;
    Product(|Stride(w, step, end)|, p / step, step);
  }

  lemma PickMembers(list: seq<int>, c: nat, step: int)
    requires 0 <= c < step
    ensures forall y :: y in Pick(list, c, step) ==> y in list
    ensures forall x :: 0 <= x < |list| && x % step == c ==> list[x] in Pick(list, c, step)
  {
    var s := Stride(c, step, |list|);
    StrideRange(c, step, |list|);
    forall x | 0 <= x < |list| && x % step == c ensures list[x] in Pick(list, c, step) {
      StrideMembers(c, step, |list|, x);
      assert Pick(list, c, step)[x / step] == list[x];
    }
  }

  lemma PickOthers(list: seq<int>, x: nat, c: nat, step: int)
    requires 0 <= c < step && x < |list| && x % step != c
    requires forall a, b :: 0 <= a < b < |list| ==> list[a] != list[b]
    ensures list[x] !in Pick(list, c, step)
  {
    var s := Stride(c, step, |list|);
    StrideRange(c, step, |list|);
    forall y | 0 <= y < |s| ensures Pick(list, c, step)[y] != list[x] {
      StrideIndex(c, step, |list|, y);
    }
  }

  /** Partition p belongs to worker p mod W, and there to consumer (p div W) mod C. */
  lemma Route(p: int, W: int, w: int, C: int, c: int, total: int)
    requires 0 <= w < W && 0 <= c < C
    ensures p in Pick(Stride(w, W, total), c, C) <==> 0 <= p < total && p % W == w && (p / W) % C == c
  {
    var mine := Stride(w, W, total);
    PickMembers(mine, c, C);
    StrideMembers(w, W, total, p);
    StrideRange(w, W, total);
    if p in mine && (p / W) % C != c {
      PickOthers(mine, p / W, c, C);
    }
  }

  /** The table of consumers that CreateConsumerQueues builds, partition by
      partition: it names the same consumer, and -1 for another worker's. */
  lemma ConsumerTable(w: int, W: int, total: nat, C: int, table: seq<int>)
    requires 0 <= w < W && C > 0 && |table| == total
    requires forall x :: 0 <= x < |Stride(w, W, total)| ==>
               0 <= Stride(w, W, total)[x] < total && table[Stride(w, W, total)[x]] == x % C
    requires forall p :: 0 <= p < total && p !in Stride(w, W, total) ==> table[p] == -1
    ensures forall p :: 0 <= p < total ==> table[p] == if p % W == w then (p / W) % C else -1
  {
    forall p | 0 <= p < total ensures table[p] == if p % W == w then (p / W) % C else -1 {
      StrideMembers(w, W, total, p);
    }
  }

  /** A consumer's partitions are listed in increasing order. */
  lemma PickIncreasing(w: int, W: int, total: int, c: nat, C: int)
    requires W > 0 && 0 <= c < C
    ensures var list := Pick(Stride(w, W, total), c, C);
            forall x, y :: 0 <= x < y < |list| ==> list[x] < list[y]
  {
    StrideRange(w, W, total);
    StrideRange(c, C, |Stride(w, W, total)|);
  }

  /** Fair shares: two workers', or two consumers', counts differ by at most one. */
  lemma Balanced(a: nat, b: nat, step: int, end: int)
    requires 0 <= a < step && 0 <= b < step
    ensures |Stride(a, step, end)| <= |Stride(b, step, end)| + 1
  {
    var m, n := |Stride(a, step, end)|, |Stride(b, step, end)|;
    if m > 0 {
      StrideRange(a, step, end);
      StrideAt(a, step, end, m - 1);
      StrideEnd(b, step, end);
      Product(n + 1, m - 1, step);
      OneMore(n, step);
    }
  }
}
