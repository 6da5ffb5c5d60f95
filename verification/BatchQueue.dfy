/** The batch queue as the program keeps it: one flat slot array and plain
    counters, changed in place.  A method runs one critical section, from taking
    the mutex to returning, throwing or going to sleep; it tells which, and which
    notifications it sent.  What each does to the abstract queue is the section
    of the same name in BatchCore, on which the pass systems are built. */
module BatchQueue {
  import opened Prelude
  import opened BatchCore
  import opened Threads
  import Drain

  datatype DataContainer<T> = DataContainer(valuePtr: Option<Item<T>>, isSet: bool)

  function Cell<T>(d: DataContainer<T>): Option<Item<T>> {
    if d.isSet then d.valuePtr else None
  }

  lemma FlatIndex(i: nat, j: nat, n: nat, size: nat)
    requires i < n && j < size
    ensures 0 <= i * size + j < n * size
    ensures (i * size + j) / size == i && (i * size + j) % size == j
  {
    Product(i + 1, n, size);
    Divide(i * size + j, i, j, size);
  }

  lemma Divide(x: nat, i: nat, j: nat, size: nat)
    requires j < size && x == i * size + j
    ensures x / size == i && x % size == j
  {
    var d := x / size;
    assert x == d * size + x % size;
    Product(d + 1, i, size);
    Product(i + 1, d, size);
  }

  lemma FlatSplit(x: nat, n: nat, size: nat)
    requires x < n * size
    ensures size > 0 && x / size < n && x % size < size && x == (x / size) * size + x % size
  {
    Product(n, x / size, size);
  }

  ghost function CellAt<T>(data: seq<DataContainer<T>>, n: nat, size: nat, i: nat, j: nat): Option<Item<T>>
    requires |data| == n * size && i < n && j < size
  {
    FlatIndex(i, j, n, size);
    Cell(data[i * size + j])
  }

  /** The flat array cut into one row per producer. */
  ghost function Rows<T>(data: seq<DataContainer<T>>, n: nat, size: nat): seq<seq<Option<Item<T>>>>
    requires |data| == n * size
  {
    seq(n, i requires 0 <= i < n =>
      seq(size, j requires 0 <= i < n && 0 <= j < size => CellAt(data, n, size, i, j)))
  }

  /** Writing one flat cell writes one cell of one row. */
  lemma RowsUpdate<T>(data: seq<DataContainer<T>>, n: nat, size: nat, i: nat, j: nat, d: DataContainer<T>)
    requires |data| == n * size && i < n && j < size
    ensures i * size + j < |data|
    ensures Rows(data[i * size + j := d], n, size) == Rows(data, n, size)[i := Rows(data, n, size)[i][j := Cell(d)]]
  {
    FlatIndex(i, j, n, size);
    var x := i * size + j;
    var left, right := Rows(data[x := d], n, size), Rows(data, n, size)[i := Rows(data, n, size)[i][j := Cell(d)]];
    forall a | 0 <= a < n ensures left[a] == right[a] {
      forall b | 0 <= b < size ensures left[a][b] == right[a][b] {
        FlatIndex(a, b, n, size);
      }
    }
  }

  /** The first i ids, and no others, have their positions as numbers. */
  ghost predicate Numbers(m: map<int, nat>, ids: seq<int>, i: nat)
    requires i <= |ids|
  {
    && (forall p :: p in m <==> p in ids[..i])
    && (forall x :: 0 <= x < i ==> ids[x] in m && m[ids[x]] == x)
  }

  lemma NumbersNone(ids: seq<int>)
    ensures Numbers(map[], ids, 0)
  {
  }

  lemma NumbersNext(m: map<int, nat>, ids: seq<int>, i: nat)
    requires Distinct(ids) && i < |ids| && Numbers(m, ids, i)
    ensures Numbers(m[ids[i] := i], ids, i + 1)
  {
    assert ids[..i + 1] == ids[..i] + [ids[i]];
  }

  lemma NumbersAll(m: map<int, nat>, ids: seq<int>)
    requires Distinct(ids) && Numbers(m, ids, |ids|)
    ensures m == NumberOf(ids) && forall p :: p in m ==> m[p] < |ids|
  {
    assert ids[..|ids|] == ids;
    NumberOfUnique(ids, m);
  }

  ghost predicate NoneSet<T>(data: seq<DataContainer<T>>) {
    forall x :: 0 <= x < |data| ==> !data[x].isSet
  }

  lemma NotSet<T>(data: seq<DataContainer<T>>)
    requires NoneSet(data)
    ensures forall x :: 0 <= x < |data| ==> !data[x].isSet
  {
  }

  lemma FreshRows<T>(data: seq<DataContainer<T>>, n: nat, size: nat)
    requires |data| == n * size && forall x :: 0 <= x < |data| ==> !data[x].isSet
    ensures Rows(data, n, size) == seq(n, _ => seq(size, _ => None))
  {
    var rows: seq<seq<Option<Item<T>>>> := Rows(data, n, size);
    forall a | 0 <= a < n ensures rows[a] == seq(size, _ => None) {
      forall b | 0 <= b < size ensures rows[a][b] == None {
        FlatIndex(a, b, n, size);
      }
    }
  }

  /** The first set cell in flat order is the first set cell of the first row
      that has one. */
  lemma FirstFlat<T>(data: seq<DataContainer<T>>, n: nat, size: nat, x: nat)
    requires |data| == n * size && x < |data| && Cell(data[x]).Some?
    requires forall y :: 0 <= y < x ==> Cell(data[y]).None?
    ensures size > 0 && x / size < n && x % size < size
    ensures Drain.FirstRow(Rows(data, n, size)) == x / size
    ensures Drain.FirstIn(Rows(data, n, size)[x / size]) == x % size
  {
    FlatSplit(x, n, size);
    var i, j := x / size, x % size;
    var rows: seq<seq<Option<Item<T>>>> := Rows(data, n, size);
    forall b | 0 <= b < j ensures rows[i][b].None? {
      EarlierCell(data, n, size, i, b, x);
    }
    Drain.FirstInIs(rows[i], j);
    forall a | 0 <= a < i ensures Drain.FirstIn(rows[a]) == |rows[a]| {
      EarlierRow(data, n, size, a, x);
    }
    Drain.FirstRowIs(rows, i);
  }

  lemma EarlierCell<T>(data: seq<DataContainer<T>>, n: nat, size: nat, a: nat, b: nat, x: nat)
    requires |data| == n * size && a < n && b < size && a * size + b < x <= |data|
    requires forall y :: 0 <= y < x ==> Cell(data[y]).None?
    ensures CellAt(data, n, size, a, b).None?
  {
    FlatIndex(a, b, n, size);
  }

  lemma EarlierRow<T>(data: seq<DataContainer<T>>, n: nat, size: nat, a: nat, x: nat)
    requires |data| == n * size && 0 < size && a < x / size <= n && x <= |data|
    requires forall y :: 0 <= y < x ==> Cell(data[y]).None?
    ensures Drain.FirstIn(Rows(data, n, size)[a]) == size
  {
    Product(a + 1, x / size, size);
    forall b | 0 <= b < size ensures CellAt(data, n, size, a, b).None? {
      EarlierCell(data, n, size, a, b, x);
    }
  }

  class ThreadSafeBatchQueue<T> {
    var m_queue: seq<Item<T>>
    const m_batchSize: nat
    const m_totalProducers: nat
    var m_activeProducers: int
    var m_producerActiveArray: seq<bool>
    const m_producerIds: seq<int>
    var m_partitionIdToNumber: map<int, nat>
    var m_dataArray: seq<DataContainer<T>>
    var m_currentBatch: nat
    var m_readInBatch: seq<nat>
    var m_itemsToRead: int

    /** The sizes agree, set slots hold a value, and the item queue is as long
        as the number of items to read. */
    ghost predicate Valid()
      reads this
    {
      && m_batchSize >= 1
      && |m_dataArray| == m_totalProducers * m_batchSize
      && |m_producerActiveArray| == |m_readInBatch| == m_totalProducers
      && (forall x :: 0 <= x < |m_dataArray| && m_dataArray[x].isSet ==> m_dataArray[x].valuePtr.Some?)
      && Shaped(Abs())
    }

    ghost function Abs(): Queue<T>
      requires |m_dataArray| == m_totalProducers * m_batchSize
      reads this
    {
      Queue(m_batchSize, m_partitionIdToNumber, m_producerActiveArray, m_activeProducers,
            Rows(m_dataArray, m_totalProducers, m_batchSize), m_currentBatch, m_readInBatch, m_itemsToRead, m_queue)
    }

    constructor (batch_size: nat, producers: seq<int>)
      requires batch_size >= 1 && Distinct(producers)
      ensures Valid() && Abs() == NewQueue(producers, batch_size)
    {
      m_batchSize := batch_size;
      m_totalProducers := |producers|;
      m_activeProducers := |producers|;
      m_producerIds := producers;
      m_currentBatch := 0;
      m_itemsToRead := 0;
      m_queue := [];
      m_dataArray := [];
      m_producerActiveArray := [];
      m_readInBatch := [];
      m_partitionIdToNumber := map[];
      new;
      hide Rows, NumberOf, NoneSet, Numbers, Distinct;
      NumbersNone(producers);
      var i := 0;
      while i < m_totalProducers
        invariant 0 <= i <= m_totalProducers
        invariant m_activeProducers == m_totalProducers && m_currentBatch == 0 && m_itemsToRead == 0 && m_queue == []
        invariant Numbers(m_partitionIdToNumber, producers, i)
        invariant m_producerActiveArray == seq(i, _ => true) && m_readInBatch == seq(i, _ => 0)
        invariant |m_dataArray| == i * m_batchSize && NoneSet(m_dataArray)
      {
        NumbersNext(m_partitionIdToNumber, producers, i);
        m_partitionIdToNumber := m_partitionIdToNumber[m_producerIds[i] := i];
        m_producerActiveArray := m_producerActiveArray + [true];
        m_readInBatch := m_readInBatch + [0];
        AddSlots();
        OneMore(i, m_batchSize);
        i := i + 1;
      }
      NumbersAll(m_partitionIdToNumber, producers);
      NotSet(m_dataArray);
      FreshRows(m_dataArray, m_totalProducers, m_batchSize);
    }

    /** The inner loop of the constructor: one producer's slots. */
    method AddSlots()
      requires NoneSet(m_dataArray)
      modifies `m_dataArray
      ensures |m_dataArray| == old(|m_dataArray|) + m_batchSize && NoneSet(m_dataArray)
    {
      var j := 0;
      while j < m_batchSize
        invariant 0 <= j <= m_batchSize && |m_dataArray| == old(|m_dataArray|) + j && NoneSet(m_dataArray)
      {
        m_dataArray := m_dataArray + [DataContainer(None, false)];
        j := j + 1;
      }
    }

    method IsBatchFinished() returns (r: bool)
      requires Valid()
      ensures r == BatchFinished(Abs())
    {
      var i := 0;
      while i < m_totalProducers
        invariant 0 <= i <= m_totalProducers
        invariant forall a :: 0 <= a < i && m_producerActiveArray[a] ==> m_readInBatch[a] == m_batchSize
      {
        if m_producerActiveArray[i] && m_readInBatch[i] != m_batchSize {
          return false;
        }
        i := i + 1;
      }
      return m_itemsToRead == 0;
    }

    method TargetIndex(producerId: int, valueId: nat) returns (x: nat)
      requires Valid() && producerId in m_partitionIdToNumber
      ensures x == m_partitionIdToNumber[producerId] * m_batchSize + valueId % m_batchSize < |m_dataArray|
      ensures x / m_batchSize == m_partitionIdToNumber[producerId] && x % m_batchSize == valueId % m_batchSize
    {
      FlatIndex(m_partitionIdToNumber[producerId], valueId % m_batchSize, m_totalProducers, m_batchSize);
      x := m_partitionIdToNumber[producerId] * m_batchSize + valueId % m_batchSize;
    }

    method ResetBatch() returns (signals: Signals)
      requires Valid()
      modifies `m_readInBatch, `m_currentBatch
      ensures Valid() && Abs() == BatchCore.ResetBatch(old(Abs()))
      ensures signals == Signals(false, false, true, Everybody)
    {
      var i := 0;
      while i < m_totalProducers
        invariant 0 <= i <= m_totalProducers == |m_readInBatch|
        invariant forall a :: 0 <= a < i ==> m_readInBatch[a] == 0
        invariant m_currentBatch == old(m_currentBatch)
      {
        m_readInBatch := m_readInBatch[i := 0];
        i := i + 1;
      }
      m_currentBatch := m_currentBatch + 1;
      signals := Signals(false, false, true, Everybody);
      assert m_readInBatch == seq(m_totalProducers, _ => 0);
    }

    /** The end of every section that may finish a batch. */
    method EndBatch() returns (signals: Signals)
      requires Valid()
      modifies `m_readInBatch, `m_currentBatch
      ensures Valid() && (Abs(), signals) == BatchCore.EndBatch(old(Abs()))
    {
      signals := QUIET;
      var finished := IsBatchFinished();
      if finished {
        signals := ResetBatch();
      }
    }

    method ReadValue(idx: nat) returns (res: Option<Item<T>>)
      requires Valid() && idx < |m_dataArray| && m_itemsToRead > 0
      modifies `m_itemsToRead, `m_dataArray, `m_readInBatch, `m_queue
      ensures idx / m_batchSize < m_totalProducers && idx % m_batchSize < m_batchSize
      ensures Valid() && Abs() == Taken(old(Abs()), idx / m_batchSize, idx % m_batchSize)
      ensures old(m_dataArray[idx].isSet) ==> res.Some? && res == old(Abs().slots[idx / m_batchSize][idx % m_batchSize])
    {
      FlatSplit(idx, m_totalProducers, m_batchSize);
      RowsUpdate(m_dataArray, m_totalProducers, m_batchSize, idx / m_batchSize, idx % m_batchSize,
          m_dataArray[idx].(isSet := false));
      m_itemsToRead := m_itemsToRead - 1;
      m_dataArray := m_dataArray[idx := m_dataArray[idx].(isSet := false)];
      m_readInBatch := m_readInBatch[idx / m_batchSize := m_readInBatch[idx / m_batchSize] + 1];
      res := m_dataArray[idx].valuePtr;
      // each caller also pops the item queue
      m_queue := m_queue[1..];
    }

    method Push(val: Item<T>) returns (outcome: Outcome<T>, signals: Signals)
      requires Valid() && val.part in m_partitionIdToNumber
      // "pushing to non-empty place": what the source asserts
      requires val.id / m_batchSize <= m_currentBatch ==>
                 Abs().slots[m_partitionIdToNumber[val.part]][val.id % m_batchSize].None?
      modifies `m_dataArray, `m_queue, `m_itemsToRead
      ensures Valid() && Section(Abs(), outcome, signals) == PushSection(old(Abs()), val)
    {
      var batchNum := val.id / m_batchSize;
      var valueIndex := TargetIndex(val.part, val.id);
      if batchNum > m_currentBatch {
        return Wait(BusyCV), QUIET;
      }
      assert !m_dataArray[valueIndex].isSet;
      RowsUpdate(m_dataArray, m_totalProducers, m_batchSize, m_partitionIdToNumber[val.part], val.id % m_batchSize,
                 DataContainer(Some(val), true));
      m_dataArray := m_dataArray[valueIndex := DataContainer(Some(val), true)];
      m_queue := m_queue + [val];
      m_itemsToRead := m_itemsToRead + 1;
      return Returned, Signals(true, false, false, Waiting(m_partitionIdToNumber[val.part]));
    }

    method Pop() returns (outcome: Outcome<T>, signals: Signals)
      requires Valid() && (m_itemsToRead > 0 ==> m_queue[0].part in m_partitionIdToNumber)
      modifies `m_itemsToRead, `m_dataArray, `m_readInBatch, `m_queue, `m_currentBatch
      ensures Valid() && Section(Abs(), outcome, signals) == PopSection(old(Abs()))
    {
      if m_itemsToRead == 0 && m_activeProducers != 0 {
        return Wait(EmptyCV), QUIET;
      }
      if m_itemsToRead == 0 && m_activeProducers == 0 {
        return Thrown("Queue is empty"), QUIET;
      }
      var res := m_queue[0];
      var valueIndex := TargetIndex(res.part, res.id);
      var _ := ReadValue(valueIndex);
      signals := EndBatch();
      outcome := Delivered(res);
    }

    /** Get from its first lock (resumed is false) or from its wait loop on. */
    method Get(producerId: int, valueId: nat, resumed: bool) returns (outcome: Outcome<T>, signals: Signals)
      requires Valid() && producerId in m_partitionIdToNumber && (m_itemsToRead == 0 ==> NothingSet(Abs()))
      modifies `m_itemsToRead, `m_dataArray, `m_readInBatch, `m_queue, `m_currentBatch
      ensures Valid()
      ensures Section(Abs(), outcome, signals) ==
              if resumed then ResumeGet(old(Abs()), producerId, valueId)
                  else GetSection(old(Abs()), producerId, valueId)
    {
      if !resumed && m_itemsToRead == 0 && m_activeProducers == 0 {
        return Thrown("Queue is empty"), QUIET;
      }
      var valueIndex := TargetIndex(producerId, valueId);
      if (!m_dataArray[valueIndex].isSet || valueId / m_batchSize != m_currentBatch)
         && m_producerActiveArray[m_partitionIdToNumber[producerId]]
      {
        return Wait(DataCV(m_partitionIdToNumber[producerId])), QUIET;
      }
      if !m_dataArray[valueIndex].isSet {
        return Thrown("Asking for non-existsent chunk"), QUIET;
      }
      assert Abs().slots[m_partitionIdToNumber[producerId]][valueId % m_batchSize].Some?;
      var res := ReadValue(valueIndex);
      signals := EndBatch();
      outcome := Delivered(res.value);
    }

    method DeleteProducer(producerId: int) returns (outcome: Outcome<T>, signals: Signals)
      requires Valid() && producerId in m_partitionIdToNumber
      modifies `m_producerActiveArray, `m_activeProducers, `m_readInBatch, `m_currentBatch
      ensures Valid() && Section(Abs(), outcome, signals) == DeleteSection(old(Abs()), producerId)
    {
      m_producerActiveArray := m_producerActiveArray[m_partitionIdToNumber[producerId] := false];
      m_activeProducers := m_activeProducers - 1;
      signals := EndBatch();
      if m_activeProducers == 0 {
        signals := signals.(emptyAll := true);
      }
      outcome := Returned;
    }

    /** Reads out the first set slot and ends the batch if it is over. */
    method FreeNext() returns (res: Item<T>, busyAll: bool)
      requires Valid() && Drain.Coherent(Abs()) && m_itemsToRead > 0
      modifies `m_itemsToRead, `m_dataArray, `m_readInBatch, `m_queue, `m_currentBatch
      ensures Valid() && Drain.Coherent(Abs()) && m_itemsToRead < old(m_itemsToRead)
      ensures var rest := Drain.FreeAll(Abs());
              Drain.FreeAll(old(Abs())) == Drain.Freed(rest.q, [res] + rest.items, busyAll || rest.busyAll)
    {
      ghost var q := Abs();
      var idx := 0;
      SomeCellSet();
      while idx < |m_dataArray| && !m_dataArray[idx].isSet
        invariant 0 <= idx <= |m_dataArray|
        invariant forall y :: 0 <= y < idx ==> !m_dataArray[y].isSet
      {
        idx := idx + 1;
      }
      FirstFlat(m_dataArray, m_totalProducers, m_batchSize, idx);
      Drain.FirstExists(q);
      var value := ReadValue(idx);
      Drain.EndBatchCoherent(Abs());
      var signals := EndBatch();
      return value.value, signals.busyAll;
    }

    /** Frees items until it has to wait for more, or until it is done. */
    method FreeBatchData() returns (outcome: Outcome<T>, freed: seq<Item<T>>, busyAll: bool)
      requires Valid() && Drain.Coherent(Abs())
      modifies `m_itemsToRead, `m_dataArray, `m_readInBatch, `m_queue, `m_currentBatch
      ensures Valid() && Drain.Freed(Abs(), freed, busyAll) == Drain.FreeAll(old(Abs()))
      ensures outcome == Drain.FreeOutcome(Abs())
    {
      hide Drain.FreeAll, Rows;
      freed, busyAll := [], false;
      ghost var start := Abs();
      while m_activeProducers != 0 || m_itemsToRead != 0
        invariant Valid() && Drain.Coherent(Abs()) && m_itemsToRead >= 0
        invariant var rest := Drain.FreeAll(Abs());
                  Drain.FreeAll(start) == Drain.Freed(rest.q, freed + rest.items, busyAll || rest.busyAll)
        decreases m_itemsToRead
      {
        if m_itemsToRead == 0 && m_activeProducers != 0 {
          Drain.FreeNothing(Abs());
          return Wait(EmptyCV), freed, busyAll;
        }
        var res, busy := FreeNext();
        ghost var rest := Drain.FreeAll(Abs());
        assert freed + ([res] + rest.items) == (freed + [res]) + rest.items;
        freed := freed + [res];
        busyAll := busyAll || busy;
      }
      Drain.FreeNothing(Abs());
      outcome := Returned;
    }

    /** With something to read, some flat cell is set. */
    lemma SomeCellSet()
      requires Valid() && Drain.Coherent(Abs()) && m_itemsToRead > 0
      ensures exists x :: 0 <= x < |m_dataArray| && m_dataArray[x].isSet
    {
      NoItems(Abs());
      var i, j :| 0 <= i < |Abs().slots| && 0 <= j < |Abs().slots[i]| && Abs().slots[i][j].Some?;
      FlatIndex(i, j, m_totalProducers, m_batchSize);
      assert m_dataArray[i * m_batchSize + j].isSet;
    }
  }
}
