/** The whole read: partitions are dealt out to workers and consumers, producers
    cut their partitions into chunks, and the queues carry the chunks to the
    consumers.  What arrives is what was there. */
module Delivery {
  import opened Prelude
  import opened BatchCore
  import opened BatchThreads
  import opened Records
  import opened ChunkSplit
  import opened Chunking
  import Routing
  import FirstPass
  import FirstPassRuns
  import SimpleQueue

  /** One parallel read.  tables[p] holds the rows of partition p and turns[p]
      what the rounds of its producer meet. */
  datatype Plan = Plan(
    schema: seq<Column>, tables: seq<seq<Row>>, room: nat, turns: seq<nat -> Turn>,
    workers: nat, consumers: nat, capacity: nat)

  ghost predicate ValidPlan(plan: Plan) {
    && plan.workers >= 1 && plan.consumers >= 1 && plan.capacity >= 1
    && |plan.turns| == |plan.tables|
    && forall p :: 0 <= p < |plan.tables| ==> RowsOk(plan.schema, plan.tables[p])
  }

  type ChunkItem = Item<seq<Row>>

  /** What the producer of partition p does: PartitionReader's Read. */
  ghost function CutOf(plan: Plan, p: nat): (cut: Cut)
    requires ValidPlan(plan) && p < |plan.tables|
    ensures Sum(cut.counts) <= |plan.tables[p]|
  {
    var sizes := Sizes(plan.schema, plan.tables[p]);
    GreedyEnding(sizes, plan.room, Supported(plan.schema), plan.turns[p], 0);
    Greedy(sizes, plan.room, Supported(plan.schema), plan.turns[p], 0)
  }

  ghost function ChunksOf(plan: Plan, p: nat): (r: seq<ChunkItem>)
    requires ValidPlan(plan) && p < |plan.tables|
    ensures |r| == |CutOf(plan, p).counts|
    ensures forall k :: 0 <= k < |r| ==> r[k] == Item(p, k, Groups(plan.tables[p], CutOf(plan, p).counts)[k])
  {
    var groups := Groups(plan.tables[p], CutOf(plan, p).counts);
    seq(|groups|, k requires 0 <= k < |groups| => Item(p, k, groups[k]))
  }

  /** The partitions of consumer c of worker w. */
  ghost function Dealt(plan: Plan, w: nat, c: nat): (ids: seq<int>)
    requires ValidPlan(plan) && w < plan.workers && c < plan.consumers
    ensures forall i :: 0 <= i < |ids| ==> 0 <= ids[i] < |plan.tables|
    ensures Distinct(ids)
    ensures forall p: int :: p in ids <==>
        0 <= p < |plan.tables| && p % plan.workers == w && (p / plan.workers) % plan.consumers == c
  {
    DealtFacts(w, plan.workers, c, plan.consumers, |plan.tables|);
    Routing.Pick(Routing.Stride(w, plan.workers, |plan.tables|), c, plan.consumers)
  }

  lemma DealtFacts(w: nat, workers: nat, c: nat, consumers: nat, total: nat)
    requires w < workers && c < consumers
    ensures var ids := Routing.Pick(Routing.Stride(w, workers, total), c, consumers);
            && (forall i :: 0 <= i < |ids| ==> 0 <= ids[i] < total)
            && Distinct(ids)
            && forall p: int :: p in ids <==> 0 <= p < total && p % workers == w && (p / workers) % consumers == c
  {
    hide Routing.Pick, Routing.Stride;
    var ids := Routing.Pick(Routing.Stride(w, workers, total), c, consumers);
    forall p: int
      ensures p in ids <==> 0 <= p < total && p % workers == w && (p / workers) % consumers == c
    {
      Routing.Route(p, workers, w, consumers, c, total);
    }
    assert forall i :: 0 <= i < |ids| ==> ids[i] in ids;
    Routing.PickIncreasing(w, workers, total, c, consumers);
  }

  /** That consumer's queue, with its producers. */
  ghost function QueueOf(plan: Plan, w: nat, c: nat): (cfg: Config<seq<Row>>)
    requires ValidPlan(plan) && w < plan.workers && c < plan.consumers
    ensures ValidConfig(cfg) && cfg.ids == Dealt(plan, w, c)
    ensures forall i :: 0 <= i < |cfg.src| ==> cfg.src[i] == ChunksOf(plan, cfg.ids[i])
  {
    var ids := Dealt(plan, w, c);
    Config(ids, plan.capacity, seq(|ids|, i requires 0 <= i < |ids| => ChunksOf(plan, ids[i])))
  }

  // ------------------------------------------------------------------
  // The deliveries of one partition
  // ------------------------------------------------------------------

  function OfPart(s: seq<ChunkItem>, p: int): seq<ChunkItem> {
    if s == [] then []
    else OfPart(s[..|s| - 1], p) + (if s[|s| - 1].part == p then [s[|s| - 1]] else [])
  }

  lemma {:induction false} OfPartBy(s: seq<ChunkItem>, ids: seq<int>, i: nat)
    requires Distinct(ids) && i < |ids|
    ensures OfPart(s, ids[i]) == By(s, NumberOf(ids), i)
  {
    if s != [] {
      OfPartBy(s[..|s| - 1], ids, i);
      NumberOfMembers(ids);
      var x := s[|s| - 1];
      assert x.part in NumberOf(ids) && NumberOf(ids)[x.part] == i ==> x.part == ids[i];
    }
  }

  lemma {:induction false} OfPartNone(s: seq<ChunkItem>, p: int)
    requires forall x :: x in s ==> x.part != p
    ensures OfPart(s, p) == []
  {
    if s != [] {
      assert s[|s| - 1] in s;
      OfPartNone(s[..|s| - 1], p);
    }
  }

  /** The rows in a list of chunks. */
  function RowsIn(s: seq<ChunkItem>): seq<Row> {
    if s == [] then [] else s[0].data + RowsIn(s[1..])
  }

  lemma {:induction false} RowsOfGroups(s: seq<ChunkItem>, groups: seq<seq<Row>>)
    requires |s| == |groups| && forall k :: 0 <= k < |s| ==> s[k].data == groups[k]
    ensures RowsIn(s) == Concat(groups)
  {
    if s != [] {
      RowsOfGroups(s[1..], groups[1..]);
    }
  }

  /** A partition's chunks have no empty one among them and hold the rows its
      producer got to; all of the partition's exactly when it was not cut short. */
  lemma ChunksHoldTable(plan: Plan, p: nat)
    requires ValidPlan(plan) && p < |plan.tables|
    ensures RowsIn(ChunksOf(plan, p)) == plan.tables[p][..Sum(CutOf(plan, p).counts)]
    ensures CutOf(plan, p).ending == Finished ==> RowsIn(ChunksOf(plan, p)) == plan.tables[p]
    ensures forall k :: 0 <= k < |ChunksOf(plan, p)| ==> ChunksOf(plan, p)[k].id == k && ChunksOf(plan, p)[k].data != []
  {
    hide Greedy, Sum;
    var rows, cut := plan.tables[p], CutOf(plan, p);
    var sizes := Sizes(plan.schema, rows);
    GroupsConcat(rows, cut.counts);
    RowsOfGroups(ChunksOf(plan, p), Groups(rows, cut.counts));
    GreedyEnding(sizes, plan.room, Supported(plan.schema), plan.turns[p], 0);
    GreedyTight(sizes, plan.room, Supported(plan.schema), plan.turns[p], 0);
    forall k | 0 <= k < |ChunksOf(plan, p)| ensures ChunksOf(plan, p)[k].data != [] {
      assert ChunkTight(sizes, plan.room, cut.counts, k);
      GroupSize(rows, cut.counts, k);
    }
  }

  lemma {:induction false} GroupSize<R>(rows: seq<R>, counts: seq<nat>, k: nat)
    requires Sum(counts) <= |rows| && k < |counts|
    ensures |Groups(rows, counts)[k]| == counts[k]
  {
    if k > 0 {
      GroupSize(rows[counts[0]..], counts[1..], k - 1);
    }
  }

  // ------------------------------------------------------------------
  // Delivery
  // ------------------------------------------------------------------

  /** A queue's deliveries hold exactly its own partitions' chunks, each in order. */
  ghost predicate Delivers(plan: Plan, w: nat, c: nat, out: seq<ChunkItem>)
    requires ValidPlan(plan) && w < plan.workers && c < plan.consumers
  {
    forall p :: 0 <= p < |plan.tables| ==>
      OfPart(out, p) ==
      if p % plan.workers == w && (p / plan.workers) % plan.consumers == c then ChunksOf(plan, p) else []
  }

  lemma QueueDelivers(plan: Plan, w: nat, c: nat, out: seq<ChunkItem>)
    requires ValidPlan(plan) && w < plan.workers && c < plan.consumers
    requires var cfg := QueueOf(plan, w, c);
             && (forall x :: x in out ==> x.part in cfg.ids)
             && forall i :: 0 <= i < |cfg.src| ==> By(out, NumberOf(cfg.ids), i) == cfg.src[i]
    ensures Delivers(plan, w, c, out)
  {
    hide By, NumberOf, ChunksOf, Dealt, QueueOf;
    var cfg := QueueOf(plan, w, c);
    forall p | 0 <= p < |plan.tables|
      ensures OfPart(out, p) ==
              if p % plan.workers == w && (p / plan.workers) % plan.consumers == c then ChunksOf(plan, p) else []
    {
      if p in cfg.ids {
        var i :| 0 <= i < |cfg.ids| && cfg.ids[i] == p;
        OfPartBy(out, cfg.ids, i);
      } else {
        OfPartNone(out, p);
      }
    }
  }

  /** A complete first pass of the multi-pass queue. */
  ghost predicate BatchRun(plan: Plan, w: nat, c: nat, threads: nat, ss: seq<FirstPass.Sys<seq<Row>>>)
    requires ValidPlan(plan) && w < plan.workers && c < plan.consumers
  {
    var cfg := QueueOf(plan, w, c);
    && threads >= 1 && |ss| > 0 && ss[0] == FirstPass.Start(cfg, threads)
    && FirstPass.Run(cfg, ss) && FirstPassRuns.Stuck(cfg, ss[|ss| - 1])
  }

  lemma BatchQueueDelivers(plan: Plan, w: nat, c: nat, threads: nat, ss: seq<FirstPass.Sys<seq<Row>>>)
    requires ValidPlan(plan) && w < plan.workers && c < plan.consumers && BatchRun(plan, w, c, threads, ss)
    ensures Delivers(plan, w, c, ss[|ss| - 1].out)
    ensures threads == 1 ==> ss[|ss| - 1].recvd == [ss[|ss| - 1].out]
  {
    hide FirstPass.Start, FirstPass.Run, FirstPassRuns.Stuck, QueueOf, Delivers, Dealt, By;
    var cfg := QueueOf(plan, w, c);
    FirstPassRuns.Completes(cfg, threads, ss);
    QueueDelivers(plan, w, c, ss[|ss| - 1].out);
    if threads == 1 {
      FirstPassRuns.SoleConsumer(cfg, ss, |ss| - 1);
    }
  }

  /** A complete read through the streaming queue. */
  ghost predicate StreamRun(plan: Plan, w: nat, c: nat, threads: nat, ss: seq<SimpleQueue.Sys<seq<Row>>>)
    requires ValidPlan(plan) && w < plan.workers && c < plan.consumers
  {
    var cfg := QueueOf(plan, w, c);
    && threads >= 1 && |ss| > 0 && ss[0] == SimpleQueue.Start(cfg, threads)
    && SimpleQueue.Run(cfg, ss) && SimpleQueue.Stuck(cfg, ss[|ss| - 1])
  }

  lemma StreamQueueDelivers(plan: Plan, w: nat, c: nat, threads: nat, ss: seq<SimpleQueue.Sys<seq<Row>>>)
    requires ValidPlan(plan) && w < plan.workers && c < plan.consumers && StreamRun(plan, w, c, threads, ss)
    ensures Delivers(plan, w, c, ss[|ss| - 1].out)
  {
    hide SimpleQueue.Start, SimpleQueue.Run, SimpleQueue.Stuck, QueueOf, Delivers, Dealt, By;
    var cfg := QueueOf(plan, w, c);
    SimpleQueue.Completes(cfg, threads, ss);
    QueueDelivers(plan, w, c, ss[|ss| - 1].out);
  }

  /** One queue's run, through a batch queue or a streaming queue. */
  datatype QueueRun = Batches(batch: seq<FirstPass.Sys<seq<Row>>>) | Stream(stream: seq<SimpleQueue.Sys<seq<Row>>>)
  {
    /** The chunks in the order they left the queue. */
    function Out(): seq<ChunkItem> {
      match this
      case Batches(ss) => if ss == [] then [] else ss[|ss| - 1].out
      case Stream(ss) => if ss == [] then [] else ss[|ss| - 1].out
    }
  }

  /** The run of consumer c of worker w, up to where nothing more can happen. */
  ghost predicate CompleteRun(plan: Plan, w: nat, c: nat, threads: nat, run: QueueRun)
    requires ValidPlan(plan) && w < plan.workers && c < plan.consumers
  {
    match run
    case Batches(ss) => BatchRun(plan, w, c, threads, ss)
    case Stream(ss) => StreamRun(plan, w, c, threads, ss)
  }

  lemma RunDelivers(plan: Plan, w: nat, c: nat, threads: nat, run: QueueRun)
    requires ValidPlan(plan) && w < plan.workers && c < plan.consumers && CompleteRun(plan, w, c, threads, run)
    ensures Delivers(plan, w, c, run.Out())
  {
    hide Delivers;
    match run
    case Batches(ss) => BatchQueueDelivers(plan, w, c, threads, ss);
    case Stream(ss) => StreamQueueDelivers(plan, w, c, threads, ss);
  }

  /** Complete runs of all the queues of all the workers, each queue read by the
      same number of threads. */
  ghost predicate CompleteRead(plan: Plan, threads: nat, runs: seq<seq<QueueRun>>)
    requires ValidPlan(plan)
  {
    && |runs| == plan.workers
    && (forall w :: 0 <= w < plan.workers ==> |runs[w]| == plan.consumers)
    && forall w, c :: 0 <= w < plan.workers && 0 <= c < plan.consumers ==> CompleteRun(plan, w, c, threads, runs[w][c])
  }

  /** Whatever the interleavings: partition p arrives at one consumer of one
      worker and nowhere else, in chunks numbered 0, 1, 2, ... that hold, one
      after the other, the rows its producer got to. */
  lemma PartitionArrivesOnce(plan: Plan, threads: nat, runs: seq<seq<QueueRun>>, p: nat)
    requires ValidPlan(plan) && p < |plan.tables| && CompleteRead(plan, threads, runs)
    ensures var w, c := p % plan.workers, (p / plan.workers) % plan.consumers;
            && var mine := OfPart(runs[w][c].Out(), p);
            && (forall k :: 0 <= k < |mine| ==> mine[k].part == p && mine[k].id == k && mine[k].data != [])
            && RowsIn(mine) == plan.tables[p][..Sum(CutOf(plan, p).counts)]
            && forall v, d :: 0 <= v < plan.workers && 0 <= d < plan.consumers && (v != w || d != c) ==>
                 OfPart(runs[v][d].Out(), p) == []
  {
    hide OfPart, ChunksOf, RowsIn, CutOf, CompleteRun;
    var w, c := p % plan.workers, (p / plan.workers) % plan.consumers;
    RunDelivers(plan, w, c, threads, runs[w][c]);
    ChunksHoldTable(plan, p);
    forall v, d | 0 <= v < plan.workers && 0 <= d < plan.consumers && (v != w || d != c)
      ensures OfPart(runs[v][d].Out(), p) == []
    {
      RunDelivers(plan, v, d, threads, runs[v][d]);
    }
  }

  /** With no stop request and no failing allocation the read is complete -
      every row of every partition arrives, once, in its place - exactly when
      every row fits a chunk and every column can be written. */
  lemma NothingIsLost(plan: Plan, threads: nat, runs: seq<seq<QueueRun>>)
    requires ValidPlan(plan) && CompleteRead(plan, threads, runs)
    requires forall p, k :: 0 <= p < |plan.tables| ==> plan.turns[p](k) == Go
    ensures (forall p :: 0 <= p < |plan.tables| ==>
               RowsIn(OfPart(runs[p % plan.workers][(p / plan.workers) % plan.consumers].Out(), p)) == plan.tables[p])
            <==> forall p :: 0 <= p < |plan.tables| ==> Deliverable(plan, p)
  {
    hide RowsIn, OfPart, CutOf, Deliverable, CompleteRun;
    forall p | 0 <= p < |plan.tables|
      ensures RowsIn(OfPart(runs[p % plan.workers][(p / plan.workers) % plan.consumers].Out(), p)) == plan.tables[p]
              <==> Deliverable(plan, p)
    {
      PartitionArrivesOnce(plan, threads, runs, p);
      CompleteExactlyWhen(plan, p);
    }
  }

  ghost predicate Deliverable(plan: Plan, p: nat)
    requires ValidPlan(plan) && p < |plan.tables|
  {
    && (forall r :: 0 <= r < |plan.tables[p]| ==> RowSize(plan.schema, plan.tables[p][r]) <= plan.room)
    && (plan.tables[p] == [] || Supported(plan.schema))
  }

  lemma CompleteExactlyWhen(plan: Plan, p: nat)
    requires ValidPlan(plan) && p < |plan.tables| && forall k :: plan.turns[p](k) == Go
    ensures plan.tables[p][..Sum(CutOf(plan, p).counts)] == plan.tables[p] <==> Deliverable(plan, p)
  {
    hide Greedy, Sum, Supported, RowSize;
    var rows := plan.tables[p];
    var sizes := Sizes(plan.schema, rows);
    GreedyEnding(sizes, plan.room, Supported(plan.schema), plan.turns[p], 0);
    FinishesExactlyWhen(sizes, plan.room, Supported(plan.schema), plan.turns[p], 0);
  }
}
