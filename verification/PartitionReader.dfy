/** The producer: it cuts its partition's rows into numbered chunks, hands each to
    the queue, and signs off once, whatever happens. */
module PartitionReader {
  import opened Prelude
  import opened Bytes
  import opened Records
  import opened SuperChunks
  import opened ChunkWriter
  import opened ChunkSplit
  import opened Chunking

  datatype ReadError = NoSchema | PrepareFailed | AllocationFailed | Thrown(what: WriteResult)

  function ErrorOf(ending: Ending, size: nat): Option<ReadError> {
    match ending
    case Finished => None
    case Stopped => None
    case OutOfMemory => Some(AllocationFailed)
    case RowTooBig(required) => Some(Thrown(ChunkTooSmall(size, required)))
    case BadColumn => Some(Thrown(UnsupportedType))
  }

  /** Which error each cause gives, met in the round after the last chunk. */
  lemma ErrorByCause(sizes: seq<nat>, room: nat, supported: bool, turns: nat -> Turn)
    ensures var cut := Greedy(sizes, room, supported, turns, 0);
            var last := |cut.counts|;
            && Sum(cut.counts) <= |sizes|
            && (forall k :: 0 <= k < last ==> turns(k) == Go)
            && var rest := sizes[Sum(cut.counts)..];
            && (turns(last) == StopRequested || rest == [] ==> ErrorOf(cut.ending, room) == None)
            && (turns(last) == NoMemory && rest != [] ==> ErrorOf(cut.ending, room) == Some(AllocationFailed))
            && (turns(last) == Go && rest != [] ==>
                  if rest[0] > room then ErrorOf(cut.ending, room) == Some(Thrown(ChunkTooSmall(room, rest[0])))
                  else !supported && last == 0 && ErrorOf(cut.ending, room) == Some(Thrown(UnsupportedType)))
  {
    GreedyEnding(sizes, room, supported, turns, 0);
  }

  /** A chunk as the queue gets it. */
  ghost predicate PushedRight(chunk: Chunk, id: nat, partition: int, size: nat, schema: seq<Column>, rows: seq<Row>)
    reads chunk, chunk.m_ptr
  {
    && chunk.id == id && chunk.partition_id == partition && chunk.m_ptr.Length == size
    && ChunkHolds(chunk, schema, rows)
  }

  class ResultTableReader {
    const m_conn: S2Connection
    const m_chunk_writer: SuperChunkWriter
    const m_chunk_size: nat
    const m_partition: int
    var m_row_schema: Option<seq<Column>>
    var m_error: Option<ReadError>
    var m_is_active: bool
    /** The calls made on the queue: chunks pushed, and sign-offs. */
    var pushed: seq<Chunk>
    var deletes: nat

    constructor (conn: S2Connection, writer: SuperChunkWriter, size: nat, partition: int, schema: Option<seq<Column>>)
      ensures m_conn == conn && m_chunk_writer == writer && m_chunk_size == size && m_partition == partition
      ensures m_row_schema == schema && m_error == None && m_is_active && pushed == [] && deletes == 0
    {
      m_conn, m_chunk_writer, m_chunk_size, m_partition := conn, writer, size, partition;
      m_row_schema, m_error, m_is_active, pushed, deletes := schema, None, true, [], 0;
    }

    /** turns(k) is what round k of the loop meets: a stop request, a failing
        allocation, or neither. */
    method Read(prepared: bool, turns: nat -> Turn)
      requires m_chunk_size < TWO64 && pushed == []
      requires m_row_schema.Some? ==> RowsOk(m_row_schema.value, m_conn.m_rows)
      modifies this, m_conn, m_chunk_writer
      ensures deletes == old(deletes) + 1 && !m_is_active
      ensures m_row_schema == old(m_row_schema)
      ensures m_row_schema == None ==> pushed == [] && m_error == Some(NoSchema)
      ensures m_row_schema.Some? && !prepared ==> pushed == [] && m_error == Some(PrepareFailed)
      ensures m_row_schema.Some? && prepared ==>
                var schema := m_row_schema.value;
                var rows := old(m_conn.m_rows);
                var cut := Greedy(Sizes(schema, rows), m_chunk_size, Supported(schema), turns, 0);
                && m_error == ErrorOf(cut.ending, m_chunk_size)
                && |pushed| == |cut.counts| && Sum(cut.counts) <= |rows|
                && forall k :: 0 <= k < |pushed| ==>
                    PushedRight(pushed[k], k, m_partition, m_chunk_size, schema, Groups(rows, cut.counts)[k])
    {
      m_error := None;
      if m_row_schema == None {
        m_error := Some(NoSchema);
        deletes := deletes + 1;
        m_is_active := false;
        return;
      }
      if !prepared {
        m_error := Some(PrepareFailed);
        deletes := deletes + 1;
        m_is_active := false;
        return;
      }
      ReadChunks(m_row_schema.value, turns);
      deletes := deletes + 1;
      m_is_active := false;
    }

    /** A new chunk, filled. */
    method FillChunk(schema: seq<Column>, chunkId: nat) returns (chunk: Chunk, thrown: Option<WriteResult>)
      requires m_chunk_size < TWO64 && RowsOk(schema, m_conn.m_rows)
      modifies m_conn, m_chunk_writer
      ensures fresh(chunk) && fresh(chunk.m_ptr)
      ensures var rows := old(m_conn.m_rows);
              var n := Take(Sizes(schema, rows), m_chunk_size);
              if rows != [] && n == 0 then thrown == Some(ChunkTooSmall(m_chunk_size, RowSize(schema, rows[0])))
              else if rows != [] && !Supported(schema) then thrown == Some(UnsupportedType)
              else
                && thrown == None && m_conn.m_rows == rows[n..] && chunk.row_count == n
                && PushedRight(chunk, chunkId, m_partition, m_chunk_size, schema, rows[..n])
    {
      var ptr := new Byte[m_chunk_size];
      chunk := new Chunk(ptr, chunkId, m_partition);
      thrown := m_conn.NextChunk(m_chunk_writer, chunk, schema);
    }

    /** The body of the try block; a thrown exception ends it with the error set. */
    method ReadChunks(schema: seq<Column>, turns: nat -> Turn)
      requires m_chunk_size < TWO64 && pushed == [] && m_error == None
      requires RowsOk(schema, m_conn.m_rows)
      modifies this, m_conn, m_chunk_writer
      ensures deletes == old(deletes) && m_row_schema == old(m_row_schema)
      ensures var rows := old(m_conn.m_rows);
              var cut := Greedy(Sizes(schema, rows), m_chunk_size, Supported(schema), turns, 0);
              && m_error == ErrorOf(cut.ending, m_chunk_size)
              && |pushed| == |cut.counts| && Sum(cut.counts) <= |rows|
              && forall k :: 0 <= k < |pushed| ==>
                  PushedRight(pushed[k], k, m_partition, m_chunk_size, schema, Groups(rows, cut.counts)[k])
    {
      hide PushedRight, CellOk, Supported, Take, Sum, Groups, RowSize, Greedy, Start, Sizes, Along;
      ghost var rows := m_conn.m_rows;
      ghost var cut := Greedy(Sizes(schema, rows), m_chunk_size, Supported(schema), turns, 0);
      AtTheStart(schema, rows, m_chunk_size, turns);
      var chunkId := 0;
      ghost var at := 0;
      assert rows[0..] == rows;
      while turns(chunkId) != StopRequested && m_conn.HasNextRow()
        invariant |pushed| == chunkId <= |cut.counts| && at <= |rows| && m_error == None
        invariant deletes == old(deletes) && m_row_schema == old(m_row_schema)
        invariant m_conn.m_rows == rows[at..] && Along(schema, rows, at, m_chunk_size, turns, chunkId, cut)
        invariant forall k :: 0 <= k < chunkId ==> fresh(pushed[k]) && fresh(pushed[k].m_ptr)
        invariant forall k :: 0 <= k < chunkId ==>
            PushedRight(pushed[k], k, m_partition, m_chunk_size, schema, Groups(rows, cut.counts)[k])
        decreases |m_conn.m_rows|
      {
        Round(schema, rows, at, m_chunk_size, turns, chunkId, cut);
        if turns(chunkId) == NoMemory {
          m_error := Some(AllocationFailed);
          break;
        }
        var chunk, thrown := FillChunk(schema, chunkId);
        if thrown.Some? {
          m_error := Some(Thrown(thrown.value));
          break;
        }
        if chunk.row_count == 0 {
          break;
        }
        ghost var n := cut.counts[chunkId];
        assert rows[at..][..n] == rows[at..at + n] && rows[at..][n..] == rows[at + n..];
        pushed := pushed + [chunk];
        chunkId := chunkId + 1;
        at := at + n;
      }
      Round(schema, rows, at, m_chunk_size, turns, chunkId, cut);
    }
  }

  /** The loop is k rounds in, and the rows from position at on are still to be read. */
  ghost predicate Along(schema: seq<Column>, rows: seq<Row>, at: nat, room: nat, turns: nat -> Turn, k: nat, cut: Cut)
    requires RowsOk(schema, rows)
  {
    && at <= |rows| && k <= |cut.counts| && Sum(cut.counts) <= |rows| && at == Start(cut.counts, k)
    && Greedy(Sizes(schema, rows[at..]), room, Supported(schema), turns, k) == Cut(cut.counts[k..], cut.ending)
  }

  lemma AtTheStart(schema: seq<Column>, rows: seq<Row>, room: nat, turns: nat -> Turn)
    requires RowsOk(schema, rows)
    ensures var cut := Greedy(Sizes(schema, rows), room, Supported(schema), turns, 0);
            Sum(cut.counts) <= |rows| && Along(schema, rows, 0, room, turns, 0, cut)
  {
    var cut := Greedy(Sizes(schema, rows), room, Supported(schema), turns, 0);
    GreedyEnding(Sizes(schema, rows), room, Supported(schema), turns, 0);
    assert rows[0..] == rows && cut.counts[0..] == cut.counts && cut.counts[..0] == [];
  }

  /** One round of the loop against one step of the specification. */
  lemma Round(schema: seq<Column>, rows: seq<Row>, at: nat, room: nat, turns: nat -> Turn, k: nat, cut: Cut)
    requires RowsOk(schema, rows) && Along(schema, rows, at, room, turns, k, cut)
    ensures var rest := rows[at..];
            var n := Take(Sizes(schema, rest), room);
            if turns(k) == StopRequested then k == |cut.counts| && cut.ending == Stopped
            else if rest == [] then k == |cut.counts| && cut.ending == Finished
            else if turns(k) == NoMemory then k == |cut.counts| && cut.ending == OutOfMemory
            else if n == 0 then k == |cut.counts| && cut.ending == RowTooBig(RowSize(schema, rest[0]))
            else if !Supported(schema) then k == |cut.counts| && cut.ending == BadColumn
            else
              && k < |cut.counts| && cut.counts[k] == n && at + n <= |rows|
              && Along(schema, rows, at + n, room, turns, k + 1, cut)
              && Groups(rows, cut.counts)[k] == rows[at..at + n]
  {
    hide CellOk, Supported, Take, Sum, Groups, RowSize;
    var rest := rows[at..];
    var n := Take(Sizes(schema, rest), room);
    if turns(k) == Go && rest != [] && n > 0 && Supported(schema) {
      assert |cut.counts[k..]| > 0;
      assert cut.counts[k..][1..] == cut.counts[k + 1..];
      SumOfOneMore(cut.counts, k);
      GroupsAt(rows, cut.counts, k);
      assert Sizes(schema, rest)[n..] == Sizes(schema, rows[at + n..]);
    }
  }

  lemma {:induction false} GroupsAt<R>(rows: seq<R>, counts: seq<nat>, k: nat)
    requires Sum(counts) <= |rows| && k < |counts|
    ensures Start(counts, k) <= Start(counts, k + 1) <= |rows|
    ensures Groups(rows, counts)[k] == rows[Start(counts, k)..Start(counts, k + 1)]
  {
    hide Start;
    StartTail(counts, k + 1);
    StartBounds(counts, k);
    if k > 0 {
      var rest := rows[counts[0]..];
      StartTail(counts, k);
      GroupsAt(rest, counts[1..], k - 1);
      var lo, hi := Start(counts[1..], k - 1), Start(counts[1..], k);
      assert rest[lo..hi] == rows[counts[0] + lo..counts[0] + hi];
    } else {
      StartAtZero(counts);
      StartAtZero(counts[1..]);
    }
  }

  lemma StartAtZero(counts: seq<nat>)
    ensures Start(counts, 0) == 0
  {
    assert counts[..0] == [];
  }

  lemma StartTail(counts: seq<nat>, k: nat)
    requires 0 < k <= |counts|
    ensures Start(counts, k) == counts[0] + Start(counts[1..], k - 1)
  {
    assert counts[..k][1..] == counts[1..][..k - 1];
  }

  lemma StartBounds(counts: seq<nat>, k: nat)
    requires k < |counts|
    ensures Start(counts, k) <= Start(counts, k + 1) <= Sum(counts)
  {
    SumGrows(counts, k, k + 1);
    SumGrows(counts, k + 1, |counts|);
    assert counts[..|counts|] == counts;
  }
}
