/** The state of a batch queue and, for each of its operations, the critical
    section between taking the mutex and releasing it (by returning, by
    throwing or by going to sleep on a condition variable).
    The slot array is kept as one row of slots per producer. */
module BatchCore {
  import opened Prelude
  import opened Threads

  /** What is queued: the producer (partition) it came from, its running number
      there, and its contents. */
  datatype Item<T> = Item(part: int, id: nat, data: T)

  /** The notifications a critical section sends before it releases the mutex:
      `notify_one` or `notify_all` on the empty condition variable, `notify_all`
      on the busy one, `notify_all` on the data condition variables listed. */
  datatype Signals = Signals(emptyOne: bool, emptyAll: bool, busyAll: bool, data: Audience)

  datatype Audience = Nobody | Everybody | Waiting(producer: nat)
  {
    predicate Includes(i: nat) {
      Everybody? || (Waiting? && producer == i)
    }
  }

  const QUIET := Signals(false, false, false, Nobody)

  datatype Outcome<T> = Wait(cv: CondVar) | Returned | Delivered(item: Item<T>) | Thrown(message: string)

  datatype Queue<T> = Queue(
    batchSize: nat,
    number: map<int, nat>,
    active: seq<bool>,
    activeProducers: int,
    slots: seq<seq<Option<Item<T>>>>,
    batch: nat,
    read: seq<nat>,
    items: int,
    fifo: seq<Item<T>>)

  datatype Section<T> = Section(q: Queue<T>, outcome: Outcome<T>, signals: Signals)

  predicate Shaped<T>(q: Queue<T>) {
    && q.batchSize >= 1
    && |q.active| == |q.read| == |q.slots|
    && (forall i :: 0 <= i < |q.slots| ==> |q.slots[i]| == q.batchSize)
    && (forall p :: p in q.number ==> q.number[p] < |q.active|)
    && |q.fifo| == q.items
  }

  predicate BatchFinished<T>(q: Queue<T>)
    requires Shaped(q)
  {
    && (forall i :: 0 <= i < |q.active| && q.active[i] ==> q.read[i] == q.batchSize)
    && q.items == 0
  }

  function ResetBatch<T>(q: Queue<T>): Queue<T> {
    q.(read := seq(|q.read|, _ => 0), batch := q.batch + 1)
  }

  /** The common tail of Pop, Get, DeleteProducer and FreeBatchData. */
  function EndBatch<T>(q: Queue<T>): (Queue<T>, Signals)
    requires Shaped(q)
  {
    if BatchFinished(q)
    then (ResetBatch(q), Signals(false, false, true, Everybody))
    else (q, QUIET)
  }

  function PushSection<T>(q: Queue<T>, val: Item<T>): Section<T>
    requires Shaped(q) && val.part in q.number
  {
    if val.id / q.batchSize > q.batch then
      Section(q, Wait(BusyCV), QUIET)
    else
      var i := q.number[val.part];
      var j := val.id % q.batchSize;
      Section(q.(slots := q.slots[i := q.slots[i][j := Some(val)]], fifo := q.fifo + [val], items := q.items + 1),
              Returned,
              Signals(true, false, false, Waiting(i)))
  }

  /** ReadValue and the pop of the item queue. */
  function Taken<T>(q: Queue<T>, i: nat, j: nat): (r: Queue<T>)
    requires Shaped(q) && q.items > 0 && i < |q.slots| && j < q.batchSize
    ensures Shaped(r)
  {
    q.(slots := q.slots[i := q.slots[i][j := None]],
       read := q.read[i := q.read[i] + 1],
       items := q.items - 1,
       fifo := q.fifo[1..])
  }

  function TakeSection<T>(q: Queue<T>, i: nat, j: nat, res: Item<T>): Section<T>
    requires Shaped(q) && q.items > 0 && i < |q.slots| && j < q.batchSize
  {
    var (q', signals) := EndBatch(Taken(q, i, j));
    Section(q', Delivered(res), signals)
  }

  function PopSection<T>(q: Queue<T>): Section<T>
    requires Shaped(q) && (q.items > 0 ==> q.fifo[0].part in q.number)
  {
    if q.items == 0 then
      Section(q, if q.activeProducers != 0 then Wait(EmptyCV) else Thrown("Queue is empty"), QUIET)
    else
      var res := q.fifo[0];
      TakeSection(q, q.number[res.part], res.id % q.batchSize, res)
  }

  /** Get, from the first lock: the emptiness test runs only here. */
  function GetSection<T>(q: Queue<T>, part: int, id: nat): Section<T>
    requires Shaped(q) && part in q.number && (q.items == 0 ==> NothingSet(q))
  {
    if q.items == 0 && q.activeProducers == 0 then
      Section(q, Thrown("Queue is empty"), QUIET)
    else
      ResumeGet(q, part, id)
  }

  predicate NothingSet<T>(q: Queue<T>) {
    forall i, j :: 0 <= i < |q.slots| && 0 <= j < |q.slots[i]| ==> q.slots[i][j].None?
  }

  /** Get, from the wait loop on: also what a woken sleeper runs. */
  function ResumeGet<T>(q: Queue<T>, part: int, id: nat): Section<T>
    requires Shaped(q) && part in q.number && (q.items == 0 ==> NothingSet(q))
  {
    var i := q.number[part];
    var j := id % q.batchSize;
    if (q.slots[i][j].None? || id / q.batchSize != q.batch) && q.active[i] then
      Section(q, Wait(DataCV(i)), QUIET)
    else if q.slots[i][j].None? then
      Section(q, Thrown("Asking for non-existsent chunk"), QUIET)
    else
      TakeSection(q, i, j, q.slots[i][j].value)
  }

  function DeleteSection<T>(q: Queue<T>, part: int): Section<T>
    requires Shaped(q) && part in q.number
  {
    var q1 := q.(active := q.active[q.number[part] := false], activeProducers := q.activeProducers - 1);
    var (q2, signals) := EndBatch(q1);
    Section(q2, Returned, signals.(emptyAll := q1.activeProducers == 0))
  }

  // ------------------------------------------------------------------
  // The invariant that ties the counters, the slots and the history together
  // ------------------------------------------------------------------

  /** The number of set slots in one producer's row. */
  ghost function SetCount<T>(row: seq<Option<Item<T>>>): nat {
    |row| - multiset(row)[None]
  }

  ghost function Counts<T>(slots: seq<seq<Option<Item<T>>>>): seq<nat> {
    seq(|slots|, i requires 0 <= i < |slots| => SetCount(slots[i]))
  }

  /** The first id of the current batch. */
  function Base<T>(q: Queue<T>): nat {
    q.batch * q.batchSize
  }

  /** How many ids of the batch that starts at base are below k. */
  function Within(base: nat, k: nat): nat {
    if k <= base then 0 else k - base
  }

  /** Producer i will push src[i][0], src[i][1], ... with ids 0, 1, ... */
  ghost predicate Genuine<T>(number: map<int, nat>, src: seq<seq<Item<T>>>) {
    forall i, m :: 0 <= i < |src| && 0 <= m < |src[i]| ==>
      src[i][m].part in number && number[src[i][m].part] == i && src[i][m].id == m
  }

  /** Each producer's position k[i] in its list, against the current batch. */
  ghost predicate Positions<T>(active: seq<bool>, src: seq<seq<Item<T>>>, k: seq<nat>, base: nat, size: nat) {
    && |src| == |k| == |active|
    && forall i :: 0 <= i < |k| ==>
      && k[i] <= |src[i]|
      && k[i] <= base + size
      && (active[i] ==> base <= k[i])
      && (!active[i] ==> k[i] == |src[i]|)
  }

  /** A set slot (i, j) holds producer i's item number base + j, already pushed. */
  ghost predicate SlotsHold<T>(slots: seq<seq<Option<Item<T>>>>, src: seq<seq<Item<T>>>, k: seq<nat>, base: nat) {
    && |slots| == |src| == |k|
    && forall i, j :: 0 <= i < |slots| && 0 <= j < |slots[i]| && slots[i][j].Some? ==>
      base + j < k[i] <= |src[i]| && slots[i][j].value == src[i][base + j]
  }

  /** Read plus set equals pushed, within the current batch, for every producer. */
  ghost predicate ReadBalance<T>(read: seq<nat>, slots: seq<seq<Option<Item<T>>>>, k: seq<nat>, base: nat) {
    && |read| == |slots| == |k|
    && forall i :: 0 <= i < |k| ==> read[i] + SetCount(slots[i]) == Within(base, k[i])
  }

  ghost predicate Stored<T>(row: seq<Option<Item<T>>>, m: nat, base: nat) {
    base <= m < base + |row| && row[m - base].Some?
  }

  /** What has left the queue: exactly what was pushed and is in no slot. */
  ghost predicate TakenExactly<T>(slots: seq<seq<Option<Item<T>>>>, src: seq<seq<Item<T>>>, k: seq<nat>,
                                  taken: set<Item<T>>, base: nat)
  {
    && |slots| == |src| == |k|
    && forall i, m :: 0 <= i < |src| && 0 <= m < |src[i]| ==>
      (src[i][m] in taken <==> m < k[i] && !Stored(slots[i], m, base))
  }

  ghost predicate FromSource<T>(src: seq<seq<Item<T>>>, y: Item<T>) {
    exists i :: 0 <= i < |src| && y.id < |src[i]| && y == src[i][y.id]
  }

  ghost predicate Sourced<T>(src: seq<seq<Item<T>>>, taken: set<Item<T>>) {
    forall y :: y in taken ==> FromSource(src, y)
  }

  /** Everything but "the current batch is not over". */
  ghost predicate InvBase<T>(q: Queue<T>, src: seq<seq<Item<T>>>, k: seq<nat>, taken: set<Item<T>>, base: nat) {
    && Shaped(q)
    && Genuine(q.number, src)
    && Positions(q.active, src, k, base, q.batchSize)
    && SlotsHold(q.slots, src, k, base)
    && ReadBalance(q.read, q.slots, k, base)
    && TakenExactly(q.slots, src, k, taken, base)
    && Sourced(src, taken)
    && q.items == Sum(Counts(q.slots))
    && q.activeProducers == multiset(q.active)[true]
  }

  ghost predicate Inv<T>(q: Queue<T>, src: seq<seq<Item<T>>>, k: seq<nat>, taken: set<Item<T>>) {
    && InvBase(q, src, k, taken, Base(q))
    && (q.activeProducers > 0 ==> !BatchFinished(q))
  }

  // ------------------------------------------------------------------
  // Arithmetic of batches
  // ------------------------------------------------------------------

  lemma BatchOf(id: nat, size: nat, batch: nat)
    requires size >= 1
    ensures (batch + 1) * size == batch * size + size
    ensures id / size > batch <==> id >= batch * size + size
    ensures id / size < batch <==> id < batch * size
    ensures id / size == batch ==> id % size == id - batch * size
  {
    var d := id / size;
    assert id == d * size + id % size;
    if d > batch {
      assert d * size >= (batch + 1) * size;
    } else if d < batch {
      assert (d + 1) * size <= batch * size;
    }
  }

  lemma CountOne<T>(row: seq<Option<Item<T>>>, j: nat, v: Option<Item<T>>)
    requires j < |row| && row[j].Some? != v.Some?
    ensures SetCount(row[j := v]) == SetCount(row) + (if v.Some? then 1 else -1)
    ensures v.None? ==> SetCount(row) > 0
  {
    assert multiset(row[j := v]) == multiset(row) - multiset{row[j]} + multiset{v};
    assert row[j] in multiset(row);
  }

  lemma {:induction false} CountZero<T>(row: seq<Option<Item<T>>>)
    ensures SetCount(row) == 0 <==> forall j :: 0 <= j < |row| ==> row[j].None?
    decreases |row|
  {
    if |row| > 0 {
      var n := |row| - 1;
      assert row == row[..n] + [row[n]];
      CountZero(row[..n]);
      assert SetCount(row) == SetCount(row[..n]) + (if row[n].None? then 0 else 1);
    }
  }

  lemma TotalOne<T>(slots: seq<seq<Option<Item<T>>>>, i: nat, j: nat, v: Option<Item<T>>)
    requires i < |slots| && j < |slots[i]| && slots[i][j].Some? != v.Some?
    ensures Sum(Counts(slots[i := slots[i][j := v]])) == Sum(Counts(slots)) + (if v.Some? then 1 else -1)
    ensures SetCount(slots[i][j := v]) == SetCount(slots[i]) + (if v.Some? then 1 else -1)
  {
    var row := slots[i][j := v];
    CountOne(slots[i], j, v);
    assert Counts(slots[i := row]) == Counts(slots)[i := SetCount(row)];
    SumUpdate(Counts(slots), i, SetCount(row));
  }

  /** No item to read: every slot is free. */
  lemma NoItems<T>(q: Queue<T>)
    requires Shaped(q) && q.items == Sum(Counts(q.slots))
    ensures q.items == 0 <==> NothingSet(q)
    ensures q.items == 0 ==> forall i :: 0 <= i < |q.slots| ==> SetCount(q.slots[i]) == 0
  {
    if q.items == 0 {
      forall i | 0 <= i < |q.slots| ensures SetCount(q.slots[i]) == 0 {
        SumBounds(Counts(q.slots), i);
        CountZero(q.slots[i]);
      }
      forall i, j | 0 <= i < |q.slots| && 0 <= j < |q.slots[i]| ensures q.slots[i][j].None? {
        CountZero(q.slots[i]);
      }
    } else {
      var i := SumWitness(Counts(q.slots));
      CountZero(q.slots[i]);
    }
  }

  // ------------------------------------------------------------------
  // A new queue
  // ------------------------------------------------------------------

  /** A queue's set-up: the partitions that feed it, its batch size, and what
      each partition's reader is going to push before it deletes itself. */
  datatype Config<T> = Config(ids: seq<int>, size: nat, src: seq<seq<Item<T>>>)

  predicate Distinct(ids: seq<int>) {
    forall i, j :: 0 <= i < j < |ids| ==> ids[i] != ids[j]
  }

  ghost predicate ValidConfig<T>(cfg: Config<T>) {
    && cfg.size >= 1
    && |cfg.ids| == |cfg.src|
    && Distinct(cfg.ids)
    && forall i, m :: 0 <= i < |cfg.src| && 0 <= m < |cfg.src[i]| ==>
      cfg.src[i][m].part == cfg.ids[i] && cfg.src[i][m].id == m
  }

  function NumberOf(ids: seq<int>): map<int, nat>
    requires Distinct(ids)
  {
    map i | 0 <= i < |ids| :: ids[i] := i
  }

  lemma NumberOfMembers(ids: seq<int>)
    requires Distinct(ids)
    ensures forall p :: p in NumberOf(ids) <==> p in ids
    ensures Numbered(NumberOf(ids), ids)
  {
    forall p | p in ids ensures p in NumberOf(ids) {
      var i :| 0 <= i < |ids| && ids[i] == p;
    }
  }

  lemma NumberOfUnique(ids: seq<int>, m: map<int, nat>)
    requires Distinct(ids) && Numbered(m, ids) && forall p :: p in m ==> p in ids
    ensures m == NumberOf(ids)
  {
    NumberOfMembers(ids);
    forall p | p in m ensures m[p] == NumberOf(ids)[p] {
      var i :| 0 <= i < |ids| && ids[i] == p;
    }
    assert m.Keys == NumberOf(ids).Keys;
  }

  ghost predicate Numbered(number: map<int, nat>, ids: seq<int>) {
    forall i :: 0 <= i < |ids| ==> ids[i] in number && number[ids[i]] == i
  }

  function NewQueue<T>(ids: seq<int>, size: nat): Queue<T>
    requires Distinct(ids)
  {
    Queue(size, NumberOf(ids), seq(|ids|, _ => true), |ids|, seq(|ids|, _ => seq(size, _ => None)), 0,
          seq(|ids|, _ => 0), 0, [])
  }

  function Zeros(n: nat): seq<nat> {
    seq(n, _ => 0)
  }

  lemma {:induction false} AllTrue(active: seq<bool>)
    requires forall i :: 0 <= i < |active| ==> active[i]
    ensures multiset(active)[true] == |active|
  {
    if active != [] {
      assert active == [active[0]] + active[1..];
      AllTrue(active[1..]);
    }
  }

  lemma ActiveCount(active: seq<bool>)
    ensures multiset(active)[true] == 0 <==> forall i :: 0 <= i < |active| ==> !active[i]
  {
    assert true in multiset(active) <==> true in active;
  }

  lemma NewQueueInv<T>(cfg: Config<T>)
    requires ValidConfig(cfg)
    ensures Inv(NewQueue(cfg.ids, cfg.size), cfg.src, Zeros(|cfg.src|), {})
  {
    var q: Queue<T> := NewQueue(cfg.ids, cfg.size);
    AllTrue(q.active);
    forall i | 0 <= i < |q.slots| ensures SetCount(q.slots[i]) == 0 {
      CountZero(q.slots[i]);
    }
    SumZero(Counts(q.slots));
    if |cfg.ids| > 0 {
      assert q.active[0] && q.read[0] != q.batchSize;
    }
  }

  // ------------------------------------------------------------------
  // Every critical section keeps the invariant
  // ------------------------------------------------------------------

  /** The parts of the invariant that the systems built on a queue use. */
  lemma InvFacts<T>(q: Queue<T>, src: seq<seq<Item<T>>>, k: seq<nat>, taken: set<Item<T>>)
    requires Inv(q, src, k, taken)
    ensures Shaped(q) && |src| == |k| == |q.slots| && q.items == Sum(Counts(q.slots)) && q.activeProducers >= 0
    ensures forall i :: 0 <= i < |k| ==> k[i] <= Base(q) + q.batchSize
    ensures forall i :: 0 <= i < |q.active| && q.active[i] ==> q.activeProducers > 0
  {
    assert forall i :: 0 <= i < |q.active| && q.active[i] ==> true in multiset(q.active);
  }

  /** A push that does not have to wait finds its slot free. */
  lemma PushFindsFree<T>(q: Queue<T>, src: seq<seq<Item<T>>>, k: seq<nat>, taken: set<Item<T>>, i: nat)
    requires Inv(q, src, k, taken) && i < |k| && q.active[i] && k[i] < |src[i]|
    requires k[i] / q.batchSize <= q.batch
    ensures q.number[src[i][k[i]].part] == i && src[i][k[i]].id == k[i]
    ensures 0 <= q.read[i] <= k[i] - Base(q) == k[i] % q.batchSize < q.batchSize
    ensures q.slots[i][k[i] % q.batchSize].None?
    ensures q.activeProducers > 0
  {
    assert true in multiset(q.active);
    BatchOf(k[i], q.batchSize, q.batch);
  }

  lemma PushKeeps<T>(q: Queue<T>, src: seq<seq<Item<T>>>, k: seq<nat>, taken: set<Item<T>>, i: nat)
    requires Inv(q, src, k, taken) && i < |k| && q.active[i] && k[i] < |src[i]|
    requires PushSection(q, src[i][k[i]]).outcome.Returned?
    ensures Inv(PushSection(q, src[i][k[i]]).q, src, k[i := k[i] + 1], taken)
  {
    PushFindsFree(q, src, k, taken, i);
    PushKeepsAt(q, src, k, taken, i, src[i][k[i]]);
  }

  lemma PushKeepsAt<T>(q: Queue<T>, src: seq<seq<Item<T>>>, k: seq<nat>, taken: set<Item<T>>, i: nat, val: Item<T>)
    requires Inv(q, src, k, taken) && |src| == |k| == |q.slots| && i < |k| && q.active[i]
    requires k[i] < |src[i]| && val == src[i][k[i]] && val.id == k[i] && val.part in q.number && q.number[val.part] == i
    requires k[i] / q.batchSize <= q.batch && 0 <= k[i] - Base(q) == k[i] % q.batchSize
    requires q.slots[i][k[i] % q.batchSize].None?
    ensures Inv(PushSection(q, val).q, src, k[i := k[i] + 1], taken)
  {
    hide SetCount, Sum, Counts, Genuine, SlotsHold, ReadBalance, TakenExactly, Sourced, Positions;
    var q' := PushSection(q, val).q;
    assert q' == q.(slots := q.slots[i := q.slots[i][k[i] - Base(q) := Some(val)]], fifo := q.fifo + [val],
        items := q.items + 1);
    SlotsAfterPush(q.read, q.slots, src, k, Base(q), i);
    TakenAfterPush(q.slots, src, k, taken, Base(q), i);
    PositionsAfterPush(q.active, src, k, Base(q), q.batchSize, i);
    assert Base(q') == Base(q);
    NoItems(q);
  }

  lemma PositionsAfterPush<T>(active: seq<bool>, src: seq<seq<Item<T>>>, k: seq<nat>, base: nat, size: nat, i: nat)
    requires Positions(active, src, k, base, size) && i < |k| && active[i]
    requires k[i] < |src[i]| && k[i] < base + size
    ensures Positions(active, src, k[i := k[i] + 1], base, size)
  {
  }

  lemma SlotsAfterPush<T>(read: seq<nat>, slots: seq<seq<Option<Item<T>>>>, src: seq<seq<Item<T>>>, k: seq<nat>,
      base: nat, i: nat)
    requires SlotsHold(slots, src, k, base) && ReadBalance(read, slots, k, base)
    requires i < |k| && k[i] < |src[i]| && base <= k[i] < base + |slots[i]| && slots[i][k[i] - base].None?
    ensures var slots' := slots[i := slots[i][k[i] - base := Some(src[i][k[i]])]];
            var k' := k[i := k[i] + 1];
            && SlotsHold(slots', src, k', base) && ReadBalance(read, slots', k', base)
            && Sum(Counts(slots')) == Sum(Counts(slots)) + 1
  {
    TotalOne(slots, i, k[i] - base, Some(src[i][k[i]]));
  }

  lemma TakenAfterPush<T>(slots: seq<seq<Option<Item<T>>>>, src: seq<seq<Item<T>>>, k: seq<nat>,
                          taken: set<Item<T>>, base: nat, i: nat)
    requires TakenExactly(slots, src, k, taken, base) && i < |k| && k[i] < |src[i]|
    requires base <= k[i] < base + |slots[i]|
    ensures TakenExactly(slots[i := slots[i][k[i] - base := Some(src[i][k[i]])]], src, k[i := k[i] + 1], taken, base)
  {
    var slots' := slots[i := slots[i][k[i] - base := Some(src[i][k[i]])]];
    var k' := k[i := k[i] + 1];
    forall a, m | 0 <= a < |src| && 0 <= m < |src[a]|
      ensures src[a][m] in taken <==> m < k'[a] && !Stored(slots'[a], m, base)
    {
      if a == i && m != k[i] {
        assert Stored(slots'[a], m, base) <==> Stored(slots[a], m, base);
      }
    }
  }

  /** Ending the batch when it is over keeps the rest of the invariant. */
  lemma EndBatchKeeps<T>(q: Queue<T>, src: seq<seq<Item<T>>>, k: seq<nat>, taken: set<Item<T>>)
    requires InvBase(q, src, k, taken, Base(q))
    ensures Inv(EndBatch(q).0, src, k, taken)
  {
    hide SetCount, Sum, Counts, Genuine, SlotsHold, ReadBalance, TakenExactly, Positions, Sourced;
    if BatchFinished(q) {
      NoItems(q);
      BatchOf(0, q.batchSize, q.batch);
      assert Base(ResetBatch(q)) == Base(q) + q.batchSize;
      NextBatch(q, src, k, taken, Base(q));
      if q.activeProducers > 0 {
        NextNotFinished(q);
      }
    }
  }

  lemma NextNotFinished<T>(q: Queue<T>)
    requires Shaped(q) && q.activeProducers == multiset(q.active)[true] > 0
    ensures !BatchFinished(ResetBatch(q))
  {
    ActiveCount(q.active);
    var i :| 0 <= i < |q.active| && q.active[i];
    assert ResetBatch(q).read[i] != q.batchSize;
  }

  lemma NextBatch<T>(q: Queue<T>, src: seq<seq<Item<T>>>, k: seq<nat>, taken: set<Item<T>>, base: nat)
    requires Shaped(q) && BatchFinished(q) && NothingSet(q)
    requires Positions(q.active, src, k, base, q.batchSize)
    requires ReadBalance(q.read, q.slots, k, base) && forall i :: 0 <= i < |q.slots| ==> SetCount(q.slots[i]) == 0
    requires TakenExactly(q.slots, src, k, taken, base)
    ensures var base' := base + q.batchSize; var q' := ResetBatch(q);
            && Positions(q'.active, src, k, base', q'.batchSize)
            && SlotsHold(q'.slots, src, k, base') && ReadBalance(q'.read, q'.slots, k, base')
            && TakenExactly(q'.slots, src, k, taken, base')
  {
    hide SetCount;
    forall i, m | 0 <= i < |src| && 0 <= m < |src[i]|
      ensures src[i][m] in taken <==> m < k[i] && !Stored(q.slots[i], m, base + q.batchSize)
    {
      assert !Stored(q.slots[i], m, base);
    }
  }

  /** Taking a set slot delivers something never delivered before, and keeps the invariant. */
  lemma TakeKeeps<T>(q: Queue<T>, src: seq<seq<Item<T>>>, k: seq<nat>, taken: set<Item<T>>, i: nat, j: nat)
    requires Inv(q, src, k, taken) && i < |q.slots| && j < q.batchSize && q.slots[i][j].Some?
    ensures q.items > 0 && q.slots[i][j].value !in taken
    ensures Inv(TakeSection(q, i, j, q.slots[i][j].value).q, src, k, taken + {q.slots[i][j].value})
  {
    hide SetCount, Sum, Counts, Genuine, SlotsHold, ReadBalance, TakenExactly, Positions, BatchFinished;
    NoItems(q);
    var v := q.slots[i][j].value;
    var base := Base(q);
    SetSlot(q, src, k, taken, i, j);
    var q1 := Taken(q, i, j);
    SlotsAfterTake(q.read, q.slots, src, k, base, i, j);
    TakenAfterTake(q.number, q.slots, src, k, taken, base, i, j);
    assert Base(q1) == base;
    EndBatchKeeps(q1, src, k, taken + {v});
  }

  lemma SetSlot<T>(q: Queue<T>, src: seq<seq<Item<T>>>, k: seq<nat>, taken: set<Item<T>>, i: nat, j: nat)
    requires Inv(q, src, k, taken) && i < |q.slots| && j < q.batchSize && q.slots[i][j].Some?
    ensures |src| == |k| == |q.slots|
    ensures var v := q.slots[i][j].value;
            v.id == Base(q) + j < k[i] <= |src[i]| && v == src[i][v.id] && v !in taken && FromSource(src, v)
  {
    hide ReadBalance, Sum, Counts;
    assert Stored(q.slots[i], Base(q) + j, Base(q));
  }

  lemma SlotsAfterTake<T>(read: seq<nat>, slots: seq<seq<Option<Item<T>>>>, src: seq<seq<Item<T>>>, k: seq<nat>,
                          base: nat, i: nat, j: nat)
    requires SlotsHold(slots, src, k, base) && ReadBalance(read, slots, k, base)
    requires i < |k| && j < |slots[i]| && slots[i][j].Some?
    ensures var slots' := slots[i := slots[i][j := None]];
            && SlotsHold(slots', src, k, base) && ReadBalance(read[i := read[i] + 1], slots', k, base)
            && Sum(Counts(slots')) == Sum(Counts(slots)) - 1
  {
    TotalOne(slots, i, j, None);
  }

  lemma TakenAfterTake<T>(number: map<int, nat>, slots: seq<seq<Option<Item<T>>>>, src: seq<seq<Item<T>>>, k: seq<nat>,
                          taken: set<Item<T>>, base: nat, i: nat, j: nat)
    requires TakenExactly(slots, src, k, taken, base) && Genuine(number, src)
    requires i < |k| && j < |slots[i]| && base + j < k[i] <= |src[i]|
    ensures TakenExactly(slots[i := slots[i][j := None]], src, k, taken + {src[i][base + j]}, base)
  {
    var slots' := slots[i := slots[i][j := None]];
    var taken' := taken + {src[i][base + j]};
    forall a, m | 0 <= a < |src| && 0 <= m < |src[a]|
      ensures src[a][m] in taken' <==> m < k[a] && !Stored(slots'[a], m, base)
    {
      if a == i && m == base + j {
        assert !Stored(slots'[a], m, base);
      } else {
        assert src[a][m] != src[i][base + j];
        assert Stored(slots'[a], m, base) <==> Stored(slots[a], m, base);
      }
    }
  }

  lemma DeleteKeeps<T>(q: Queue<T>, src: seq<seq<Item<T>>>, k: seq<nat>, taken: set<Item<T>>, i: nat, part: int)
    requires Inv(q, src, k, taken) && i < |k| && q.active[i] && k[i] == |src[i]|
    requires part in q.number && q.number[part] == i
    ensures Inv(DeleteSection(q, part).q, src, k, taken)
  {
    hide SetCount, Sum, Counts, Genuine, SlotsHold, ReadBalance, TakenExactly, Sourced, BatchFinished;
    var q1 := q.(active := q.active[i := false], activeProducers := q.activeProducers - 1);
    assert multiset(q1.active) == multiset(q.active) - multiset{true} + multiset{false};
    assert Base(q1) == Base(q);
    assert Positions(q1.active, src, k, Base(q), q.batchSize);
    EndBatchKeeps(q1, src, k, taken);
  }

  /** Bounded skew: two producers still active are at most one batch apart. */
  lemma BoundedSkew<T>(q: Queue<T>, src: seq<seq<Item<T>>>, k: seq<nat>, taken: set<Item<T>>, a: nat, b: nat)
    requires Inv(q, src, k, taken) && a < |k| && b < |k| && q.active[a] && q.active[b]
    ensures k[a] <= k[b] + q.batchSize
  {
  }

  /** If nothing is left to read, some active producer is not blocked by the batch. */
  lemma SomeProducerFree<T>(q: Queue<T>, src: seq<seq<Item<T>>>, k: seq<nat>, taken: set<Item<T>>) returns (i: nat)
    requires Inv(q, src, k, taken) && q.items == 0 && q.activeProducers > 0
    ensures i < |k| && q.active[i] && k[i] < Base(q) + q.batchSize
  {
    NoItems(q);
    i :| 0 <= i < |q.active| && q.active[i] && q.read[i] != q.batchSize;
  }
}
