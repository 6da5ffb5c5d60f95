/** The first pass over a batch queue: producers push their items in order and
    delete themselves, consumers call Pop until it throws.  One step is one
    critical section, or a spurious wakeup. */
module FirstPass {
  import opened Prelude
  import opened BatchCore
  import opened Threads
  import opened BatchThreads

  /** k[i] items of producer i have been pushed; log lists all pushes, out all
      deliveries, and recvd[c] what consumer c has received, in order. */
  datatype Sys<T> = Sys(
    q: Queue<T>,
    prod: seq<Thread>,
    k: seq<nat>,
    cons: seq<Thread>,
    log: seq<Item<T>>,
    out: seq<Item<T>>,
    recvd: seq<seq<Item<T>>>)

  datatype Action =
    | Push(i: nat, wake: nat)
    | Delete(i: nat)
    | Pop(c: nat)
    | SpuriousProducer(i: nat)
    | SpuriousConsumer(c: nat)

  ghost predicate WellFormed<T>(cfg: Config<T>, s: Sys<T>) {
    && ValidConfig(cfg)
    && Shaped(s.q)
    && Numbered(s.q.number, cfg.ids)
    && s.q.batchSize == cfg.size
    && |s.prod| == |s.k| == |cfg.src| == |s.q.active|
    && |s.cons| == |s.recvd|
    && (forall i :: 0 <= i < |s.k| ==> s.k[i] <= |cfg.src[i]|)
    && (forall x :: x in s.q.fifo ==> x.part in s.q.number)
  }

  function Start<T>(cfg: Config<T>, consumers: nat): Sys<T>
    requires Distinct(cfg.ids)
  {
    Sys(NewQueue(cfg.ids, cfg.size), seq(|cfg.src|, _ => Running), Zeros(|cfg.src|),
        seq(consumers, _ => Running), [], [], seq(consumers, _ => []))
  }

  ghost predicate Enabled<T>(cfg: Config<T>, s: Sys<T>, a: Action)
    requires WellFormed(cfg, s)
  {
    match a
    case Push(i, wake) => i < |s.prod| && CanRun(s.prod[i]) && s.k[i] < |cfg.src[i]| && Choice(s.cons, wake, EmptyCV)
    case Delete(i) => i < |s.prod| && CanRun(s.prod[i]) && s.k[i] == |cfg.src[i]|
    case Pop(c) => c < |s.cons| && CanRun(s.cons[c])
    case SpuriousProducer(i) => i < |s.prod| && s.prod[i].Asleep?
    case SpuriousConsumer(c) => c < |s.cons| && s.cons[c].Asleep?
  }

  predicate Spurious(a: Action) {
    a.SpuriousProducer? || a.SpuriousConsumer?
  }

  /** The new queue state, and the threads after the signals of the section:
      only sleepers on the condition variable that is notified wake up. */
  function Settle<T>(s: Sys<T>, sec: Section<T>, wake: nat): Sys<T> {
    s.(q := sec.q,
       prod := if sec.signals.busyAll then WakeAll(s.prod, BusyCV) else s.prod,
       cons := if sec.signals.emptyAll then WakeAll(s.cons, EmptyCV)
               else if sec.signals.emptyOne then WakeOne(s.cons, wake, EmptyCV)
               else s.cons)
  }

  ghost function Apply<T>(cfg: Config<T>, s: Sys<T>, a: Action): Sys<T>
    requires WellFormed(cfg, s) && Enabled(cfg, s, a)
  {
    match a
    case Push(i, wake) =>
      var val := cfg.src[i][s.k[i]];
      var sec := PushSection(s.q, val);
      if sec.outcome.Wait? then
        s.(prod := s.prod[i := Asleep(sec.outcome.cv)])
      else
        Settle(s.(prod := s.prod[i := Running], k := s.k[i := s.k[i] + 1], log := s.log + [val]), sec, wake)
    case Delete(i) =>
      Settle(s.(prod := s.prod[i := Gone]), DeleteSection(s.q, cfg.ids[i]), 0)
    case Pop(c) =>
      var sec := PopSection(s.q);
      (match sec.outcome
       case Wait(cv) => s.(cons := s.cons[c := Asleep(cv)])
       case Thrown(_) => s.(cons := s.cons[c := Gone])
       case Delivered(item) =>
         Settle(s.(cons := s.cons[c := Running], out := s.out + [item],
                   recvd := s.recvd[c := s.recvd[c] + [item]]), sec, 0)
       case Returned => s)
    case SpuriousProducer(i) => s.(prod := s.prod[i := Woken])
    case SpuriousConsumer(c) => s.(cons := s.cons[c := Woken])
  }

  ghost predicate Next<T>(cfg: Config<T>, s: Sys<T>, s': Sys<T>) {
    WellFormed(cfg, s) && exists a :: Enabled(cfg, s, a) && s' == Apply(cfg, s, a)
  }

  /** A step that is not a spurious wakeup. */
  ghost predicate Move<T>(cfg: Config<T>, s: Sys<T>, s': Sys<T>) {
    WellFormed(cfg, s) && exists a :: Enabled(cfg, s, a) && !Spurious(a) && s' == Apply(cfg, s, a)
  }

  ghost predicate Run<T>(cfg: Config<T>, ss: seq<Sys<T>>) {
    forall n :: 0 <= n < |ss| - 1 ==> Next(cfg, ss[n], ss[n + 1])
  }

  // ------------------------------------------------------------------
  // The invariant, on the parts of the state it speaks of
  // ------------------------------------------------------------------

  /** The set slots of a row are those from the first unread to the last pushed. */
  ghost predicate InOrder<T>(slots: seq<seq<Option<Item<T>>>>, read: seq<nat>, k: seq<nat>, base: nat) {
    && |slots| == |read| == |k|
    && forall i, j :: 0 <= i < |slots| && 0 <= j < |slots[i]| ==>
      (slots[i][j].Some? <==> read[i] <= j < Within(base, k[i]))
  }

  /** Per producer, the queue holds the last pend[i] items pushed, in order, and
      the deliveries are all the earlier ones, in order. */
  ghost predicate Ordered<T>(src: seq<seq<Item<T>>>, k: seq<nat>, pend: seq<nat>, fifo: seq<Item<T>>,
                             out: seq<Item<T>>, number: map<int, nat>)
  {
    && |src| == |k| == |pend|
    && (forall x :: x in fifo ==> x.part in number && number[x.part] < |src|)
    && forall i :: 0 <= i < |k| ==>
      && pend[i] <= k[i] <= |src[i]|
      && By(fifo, number, i) == src[i][k[i] - pend[i]..k[i]]
      && By(out, number, i) == src[i][..k[i] - pend[i]]
  }

  /** Consumers sleep on the empty condition variable, and only while the woken ones can take all there is and more
      may come; they leave only when nothing is left and nothing will come. */
  ghost predicate ConsumersWait(cons: seq<Thread>, items: int, activeProducers: int) {
    && SleepOn(cons, EmptyCV)
    && (Asleep(EmptyCV) in cons ==> items <= Number(cons, Woken) && activeProducers > 0)
    && (Gone in cons ==> activeProducers == 0 && items == 0)
  }

  ghost function Out<T>(s: Sys<T>): set<Item<T>> {
    set x | x in s.out
  }

  ghost predicate PassInv<T>(cfg: Config<T>, s: Sys<T>) {
    && WellFormed(cfg, s)
    && Inv(s.q, cfg.src, s.k, Out(s))
    && InOrder(s.q.slots, s.q.read, s.k, Base(s.q))
    && Ordered(cfg.src, s.k, Counts(s.q.slots), s.q.fifo, s.out, s.q.number)
    && s.log == s.out + s.q.fifo
    && Shared(s.recvd, Out(s), s.q.batchSize, s.q.batch)
    && ProducersWait(s.prod, s.q.active, s.k, cfg.src, s.q.batchSize, s.q.batch)
    && ConsumersWait(s.cons, s.q.items, s.q.activeProducers)
  }

  // ------------------------------------------------------------------
  // What a push, a take and the end of a batch do to each part
  // ------------------------------------------------------------------

  lemma OrderedPush<T>(src: seq<seq<Item<T>>>, k: seq<nat>, pend: seq<nat>, fifo: seq<Item<T>>,
                       out: seq<Item<T>>, number: map<int, nat>, i: nat)
    requires Ordered(src, k, pend, fifo, out, number)
    requires i < |k| && k[i] < |src[i]| && src[i][k[i]].part in number && number[src[i][k[i]].part] == i
    ensures Ordered(src, k[i := k[i] + 1], pend[i := pend[i] + 1], fifo + [src[i][k[i]]], out, number)
  {
    hide By;
    var val := src[i][k[i]];
    var k', pend' := k[i := k[i] + 1], pend[i := pend[i] + 1];
    forall a | 0 <= a < |k|
      ensures By(fifo + [val], number, a) == src[a][k'[a] - pend'[a]..k'[a]]
    {
      ByConcat(fifo, [val], number, a);
      ByOne(val, number, a);
    }
  }

  lemma OrderedTake<T>(src: seq<seq<Item<T>>>, k: seq<nat>, pend: seq<nat>, fifo: seq<Item<T>>,
                       out: seq<Item<T>>, number: map<int, nat>)
    requires Ordered(src, k, pend, fifo, out, number) && |fifo| > 0
    ensures var i := number[fifo[0].part];
            && pend[i] > 0 && fifo[0] == src[i][k[i] - pend[i]]
            && Ordered(src, k, pend[i := pend[i] - 1], fifo[1..], out + [fifo[0]], number)
  {
    hide By;
    var f := fifo[0];
    assert f in fifo;
    var i := number[f.part];
    forall a | 0 <= a < |k|
      ensures By(fifo, number, a) == (if a == i then [f] else []) + By(fifo[1..], number, a)
      ensures By(out + [f], number, a) == By(out, number, a) + (if a == i then [f] else [])
    {
      ByHead(fifo, number, a);
      ByConcat(out, [f], number, a);
      ByOne(f, number, a);
    }
    MoveHead(src[i], k[i], pend[i], f, By(fifo[1..], number, i), By(out, number, i));
    forall x | x in fifo[1..] ensures x in fifo {
    }
  }

  /** Moving the head of the pending part of a list to its delivered part. */
  lemma MoveHead<T>(all: seq<Item<T>>, k: nat, p: nat, f: Item<T>, rest: seq<Item<T>>, done: seq<Item<T>>)
    requires p <= k <= |all| && [f] + rest == all[k - p..k] && done == all[..k - p]
    ensures p > 0 && f == all[k - p] && rest == all[k - p + 1..k] && done + [f] == all[..k - p + 1]
  {
    assert |[f] + rest| == p;
    assert f == ([f] + rest)[0] && rest == ([f] + rest)[1..];
  }

  lemma CountsUpdate<T>(slots: seq<seq<Option<Item<T>>>>, i: nat, row: seq<Option<Item<T>>>)
    requires i < |slots|
    ensures Counts(slots[i := row]) == Counts(slots)[i := SetCount(row)]
  {
  }

  /** Between batches nothing is pending, so ending one disturbs no order. */
  lemma InOrderReset<T>(q: Queue<T>, k: seq<nat>)
    requires Shaped(q) && q.items == Sum(Counts(q.slots)) && |k| == |q.slots|
    requires InOrder(q.slots, q.read, k, Base(q))
    requires forall i :: 0 <= i < |k| ==> k[i] <= Base(q) + q.batchSize
    ensures var q' := EndBatch(q).0; InOrder(q'.slots, q'.read, k, Base(q'))
  {
    if BatchFinished(q) {
      NoItems(q);
      BatchOf(0, q.batchSize, q.batch);
    }
  }

  // ------------------------------------------------------------------
  // Every step keeps the invariant
  // ------------------------------------------------------------------

  lemma StartOrders<T>(q: Queue<T>, size: nat, consumers: nat)
    requires size >= 1 && |q.slots| == |q.read| && forall i :: 0 <= i < |q.slots| ==>
        forall j :: 0 <= j < |q.slots[i]| ==> q.slots[i][j].None?
    ensures InOrder(q.slots, q.read, Zeros(|q.slots|), Base(q))
    ensures Shared<T>(seq(consumers, _ => []), {}, size, q.batch)
  {
  }

  lemma StartInv<T>(cfg: Config<T>, consumers: nat)
    requires ValidConfig(cfg)
    ensures PassInv(cfg, Start(cfg, consumers))
  {
    hide Inv, Shared, InOrder;
    var s := Start(cfg, consumers);
    NewQueueInv(cfg);
    assert Out(s) == {};
    forall i | 0 <= i < |s.k| ensures Counts(s.q.slots)[i] == 0 {
      CountZero(s.q.slots[i]);
    }
    StartOrders(s.q, cfg.size, consumers);
  }

  /** The head of the queue is the item in its own slot, in the current batch. */
  lemma HeadInSlot<T>(cfg: Config<T>, s: Sys<T>)
    requires PassInv(cfg, s) && s.q.items > 0
    ensures var f := s.q.fifo[0];
            && f.part in s.q.number
            && var i := s.q.number[f.part];
            && f.id % s.q.batchSize == s.q.read[i] < s.q.batchSize
            && f.id / s.q.batchSize == s.q.batch
            && s.q.slots[i][s.q.read[i]] == Some(f)
  {
    hide Shared, ProducersWait, ConsumersWait, By, Genuine, TakenExactly, Sourced, SetCount, Sum;
    var f := s.q.fifo[0];
    var pend := Counts(s.q.slots);
    assert f in s.q.fifo;
    OrderedTake(cfg.src, s.k, pend, s.q.fifo, s.out, s.q.number);
    var i := s.q.number[f.part];
    assert s.q.read[i] + pend[i] == Within(Base(s.q), s.k[i]);
    assert f.id == Base(s.q) + s.q.read[i];
    BatchOf(f.id, s.q.batchSize, s.q.batch);
    assert s.q.slots[i][s.q.read[i]].Some?;
  }

  lemma InOrderPush<T>(slots: seq<seq<Option<Item<T>>>>, read: seq<nat>, k: seq<nat>, base: nat, i: nat, val: Item<T>)
    requires InOrder(slots, read, k, base) && i < |k| && base <= k[i] < base + |slots[i]|
    requires read[i] <= k[i] - base
    ensures InOrder(slots[i := slots[i][k[i] - base := Some(val)]], read, k[i := k[i] + 1], base)
  {
  }

  lemma ConsumersPush(cons: seq<Thread>, items: int, activeProducers: int, wake: nat)
    requires ConsumersWait(cons, items, activeProducers) && Choice(cons, wake, EmptyCV) && activeProducers > 0
    ensures ConsumersWait(WakeOne(cons, wake, EmptyCV), items + 1, activeProducers)
  {
    if Asleep(EmptyCV) in cons {
      NumberOne(cons, wake, Woken, Woken);
    }
  }

  lemma PushStep<T>(cfg: Config<T>, s: Sys<T>, i: nat, wake: nat)
    requires PassInv(cfg, s) && Enabled(cfg, s, Push(i, wake))
    ensures PassInv(cfg, Apply(cfg, s, Push(i, wake)))
  {
    hide InvBase, InOrder, Ordered, Shared, ProducersWait, ConsumersWait, SetCount;
    var s' := Apply(cfg, s, Push(i, wake));
    var val := cfg.src[i][s.k[i]];
    var sec := PushSection(s.q, val);
    ProducersPush(s.prod, s.q.active, s.k, cfg.src, s.q.batchSize, s.q.batch, i);
    if sec.outcome.Returned? {
      PushFindsFree(s.q, cfg.src, s.k, Out(s), i);
      PushKeeps(s.q, cfg.src, s.k, Out(s), i);
      var j := s.k[i] - Base(s.q);
      var k' := s.k[i := s.k[i] + 1];
      assert sec.q.slots == s.q.slots[i := s.q.slots[i][j := Some(val)]];
      assert s' == Sys(sec.q, s.prod[i := Running], k', WakeOne(s.cons, wake, EmptyCV), s.log + [val], s.out, s.recvd);
      TotalOne(s.q.slots, i, j, Some(val));
      CountsUpdate(s.q.slots, i, s.q.slots[i][j := Some(val)]);
      OrderedPush(cfg.src, s.k, Counts(s.q.slots), s.q.fifo, s.out, s.q.number, i);
      InOrderPush(s.q.slots, s.q.read, s.k, Base(s.q), i, val);
      ConsumersPush(s.cons, s.q.items, s.q.activeProducers, wake);
    }
  }

  lemma ConsumersDelete(cons: seq<Thread>, items: int, activeProducers: int)
    requires ConsumersWait(cons, items, activeProducers) && activeProducers > 0
    ensures ConsumersWait(if activeProducers == 1 then WakeAll(cons, EmptyCV) else cons, items, activeProducers - 1)
  {
    WakeAllMembers(cons, EmptyCV);
  }

  /** What ending the batch keeps, when the queue alone changes. */
  lemma EndBatchParts<T>(cfg: Config<T>, s: Sys<T>, q: Queue<T>, prod: seq<Thread>, out: set<Item<T>>,
      recvd: seq<seq<Item<T>>>)
    requires Shaped(q) && |cfg.src| == |s.k| == |q.slots| && q.items == Sum(Counts(q.slots))
    requires forall i :: 0 <= i < |s.k| ==> s.k[i] <= Base(q) + q.batchSize
    requires InOrder(q.slots, q.read, s.k, Base(q))
    requires Shared(recvd, out, q.batchSize, q.batch)
    requires ProducersWait(prod, q.active, s.k, cfg.src, q.batchSize, q.batch)
    ensures var (q', sig) := EndBatch(q);
            && InOrder(q'.slots, q'.read, s.k, Base(q'))
            && Shared(recvd, out, q'.batchSize, q'.batch)
            && ProducersWait(if sig.busyAll then WakeAll(prod, BusyCV) else prod, q'.active, s.k, cfg.src, q'.batchSize,
                q'.batch)
  {
    hide InOrder, ProducersWait;
    InOrderReset(q, s.k);
    ProducersReset(q, prod, s.k, cfg.src);
  }

  lemma DeleteStep<T>(cfg: Config<T>, s: Sys<T>, i: nat)
    requires PassInv(cfg, s) && Enabled(cfg, s, Delete(i))
    ensures PassInv(cfg, Apply(cfg, s, Delete(i)))
  {
    hide InOrder, Ordered, Shared, ProducersWait, ConsumersWait, SetCount, By, InvBase, BatchFinished;
    var part := cfg.ids[i];
    InvFacts(s.q, cfg.src, s.k, Out(s));
    ProducersDelete(s.prod, s.q.active, s.k, cfg.src, s.q.batchSize, s.q.batch, i);
    DeleteKeeps(s.q, cfg.src, s.k, Out(s), i, part);
    var q1 := s.q.(active := s.q.active[i := false], activeProducers := s.q.activeProducers - 1);
    assert Base(q1) == Base(s.q);
    EndBatchParts(cfg, s, q1, s.prod[i := Gone], Out(s), s.recvd);
    ConsumersDelete(s.cons, s.q.items, s.q.activeProducers);
    EndBatchCounts(q1);
  }

  lemma InOrderTake<T>(slots: seq<seq<Option<Item<T>>>>, read: seq<nat>, k: seq<nat>, base: nat, i: nat)
    requires InOrder(slots, read, k, base) && i < |k| && read[i] < |slots[i]|
    ensures InOrder(slots[i := slots[i][read[i] := None]], read[i := read[i] + 1], k, base)
  {
  }

  /** A woken consumer that takes an item makes room for the sleepers' claim;
      so does any other consumer. */
  lemma ConsumersPop(cons: seq<Thread>, items: int, activeProducers: int, c: nat)
    requires ConsumersWait(cons, items, activeProducers) && c < |cons| && CanRun(cons[c])
    ensures items > 0 ==> ConsumersWait(cons[c := Running], items - 1, activeProducers)
    ensures items == 0 && activeProducers > 0 ==> ConsumersWait(cons[c := Asleep(EmptyCV)], items, activeProducers)
    ensures items == 0 && activeProducers == 0 ==> ConsumersWait(cons[c := Gone], items, activeProducers)
  {
    NumberOne(cons, c, Running, Woken);
    NumberOne(cons, c, Asleep(EmptyCV), Woken);
    NumberOne(cons, c, Gone, Woken);
    NumberZero(cons[c := Asleep(EmptyCV)], Woken);
  }

  lemma PopStep<T>(cfg: Config<T>, s: Sys<T>, c: nat)
    requires PassInv(cfg, s) && Enabled(cfg, s, Pop(c))
    ensures PassInv(cfg, Apply(cfg, s, Pop(c)))
  {
    hide InOrder, Ordered, Shared, ProducersWait, ConsumersWait, SetCount, By;
    assert s.q.activeProducers >= 0;
    ConsumersPop(s.cons, s.q.items, s.q.activeProducers, c);
    if s.q.items > 0 {
      HeadInSlot(cfg, s);
      PopDelivers(cfg, s, c);
    }
  }

  lemma PopDelivers<T>(cfg: Config<T>, s: Sys<T>, c: nat)
    requires PassInv(cfg, s) && Enabled(cfg, s, Pop(c)) && s.q.items > 0
    requires ConsumersWait(s.cons[c := Running], s.q.items - 1, s.q.activeProducers)
    ensures PassInv(cfg, Apply(cfg, s, Pop(c)))
  {
    hide InOrder, Ordered, Shared, ProducersWait, ConsumersWait, SetCount, By, InvBase, BatchFinished;
    InvFacts(s.q, cfg.src, s.k, Out(s));
    HeadInSlot(cfg, s);
    var f := s.q.fifo[0];
    var i := s.q.number[f.part];
    var j := s.q.read[i];
    var s' := Apply(cfg, s, Pop(c));
    TakeKeeps(s.q, cfg.src, s.k, Out(s), i, j);
    assert Out(s') == Out(s) + {f};
    var q1 := Taken(s.q, i, j);
    assert Base(q1) == Base(s.q);
    TotalOne(s.q.slots, i, j, None);
    CountsUpdate(s.q.slots, i, s.q.slots[i][j := None]);
    OrderedTake(cfg.src, s.k, Counts(s.q.slots), s.q.fifo, s.out, s.q.number);
    InOrderTake(s.q.slots, s.q.read, s.k, Base(s.q), i);
    SharedTake(s.recvd, Out(s), s.q.batchSize, s.q.batch, c, f);
    EndBatchParts(cfg, s, q1, s.prod, Out(s'), s'.recvd);
    EndBatchCounts(q1);
  }

  /** Ending the batch leaves the slots and the queue alone. */
  lemma EndBatchCounts<T>(q: Queue<T>)
    requires Shaped(q)
    ensures var q' := EndBatch(q).0;
            q'.slots == q.slots && q'.fifo == q.fifo && q'.items == q.items && q'.number == q.number
            && q'.activeProducers == q.activeProducers && Shaped(q')
  {
  }

  lemma SpuriousStep<T>(cfg: Config<T>, s: Sys<T>, a: Action)
    requires PassInv(cfg, s) && Enabled(cfg, s, a) && Spurious(a)
    ensures PassInv(cfg, Apply(cfg, s, a))
  {
    hide InOrder, Ordered, Shared, SetCount, By, InvBase;
    match a
    case SpuriousProducer(i) =>
    case SpuriousConsumer(c) => NumberOne(s.cons, c, Woken, Woken);
  }

  lemma NextKeeps<T>(cfg: Config<T>, s: Sys<T>, s': Sys<T>)
    requires PassInv(cfg, s) && Next(cfg, s, s')
    ensures PassInv(cfg, s')
  {
    hide PassInv, Apply;
    var a :| Enabled(cfg, s, a) && s' == Apply(cfg, s, a);
    match a
    case Push(i, wake) => PushStep(cfg, s, i, wake);
    case Delete(i) => DeleteStep(cfg, s, i);
    case Pop(c) => PopStep(cfg, s, c);
    case _ => SpuriousStep(cfg, s, a);
  }

  /** The invariant holds in every state of every run. */
  lemma {:induction false} RunInv<T>(cfg: Config<T>, consumers: nat, ss: seq<Sys<T>>, n: nat)
    requires ValidConfig(cfg) && Run(cfg, ss) && n < |ss| && ss[0] == Start(cfg, consumers)
    ensures PassInv(cfg, ss[n])
  {
    hide PassInv, Next, Start;
    if n == 0 {
      StartInv(cfg, consumers);
    } else {
      RunInv(cfg, consumers, ss, n - 1);
      NextKeeps(cfg, ss[n - 1], ss[n]);
    }
  }
}
