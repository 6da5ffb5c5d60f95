/** The loops that fill chunks from a result set: one chunk, a chunk for a single
    row, and the producer's loop over a whole partition. */
module Chunking {
  import opened Prelude
  import opened Bytes
  import opened Records
  import opened ChunkImage
  import opened SuperChunks
  import opened ChunkWriter
  import opened ChunkSplit

  function Sizes(schema: seq<Column>, rows: seq<Row>): (s: seq<nat>)
    requires forall r :: 0 <= r < |rows| ==> |rows[r]| == |schema|
    ensures |s| == |rows| && forall r :: 0 <= r < |rows| ==> s[r] == RowSize(schema, rows[r])
  {
    seq(|rows|, r requires 0 <= r < |rows| => RowSize(schema, rows[r]))
  }

  /** The chunk holds exactly these rows, and its counters say so. */
  ghost predicate ChunkHolds(chunk: Chunk, schema: seq<Column>, rows: seq<Row>)
    reads chunk, chunk.m_ptr
  {
    && RowsOk(schema, rows) && (rows != [] ==> Supported(schema))
    && Stored(chunk.m_ptr[..], AllFields(schema, rows))
    && chunk.row_count == |rows|
    && chunk.variable_offset == TotalVar(AllFields(schema, rows))
    && chunk.consumed_size == Sum(Sizes(schema, rows)) <= chunk.m_ptr.Length
  }

  class S2Connection {
    /** The rows of the result set from the last fetched one on. */
    var m_rows: seq<Row>

    predicate HasNextRow()
      reads this
    {
      m_rows != []
    }

    method Advance()
      requires HasNextRow()
      modifies this
      ensures m_rows == old(m_rows)[1..]
    {
      m_rows := m_rows[1..];
    }

    /** Fills a new chunk with the longest run of rows that fits.  It throws
        when not even the first row fits or a column cannot be written. */
    method NextChunk(writer: SuperChunkWriter, chunk: Chunk, rowSchema: seq<Column>)
        returns (thrown: Option<WriteResult>)
      requires Fresh(chunk) && RowsOk(rowSchema, m_rows)
      modifies this, writer, chunk, chunk.m_ptr
      ensures var rows := old(m_rows);
              var n := Take(Sizes(rowSchema, rows), chunk.m_ptr.Length);
              if rows != [] && n == 0
              then thrown == Some(ChunkTooSmall(chunk.m_ptr.Length, RowSize(rowSchema, rows[0])))
              else if rows != [] && !Supported(rowSchema)
              then thrown == Some(UnsupportedType)
              else
                && thrown == None && m_rows == rows[n..] && chunk.row_count == n
                && ChunkHolds(chunk, rowSchema, rows[..n])
    {
      hide Stored, Supported, CellOk, RowSize, AllFields, TotalFix, TotalVar, Sum, Take, FixedRowSize;
      writer.Reset(chunk, rowSchema);
      ghost var rows, size := m_rows, chunk.m_ptr.Length;
      ghost var sizes := Sizes(rowSchema, rows);
      var rowCount := 0;
      assert rows[..0] == [];
      EmptyTotals(rowSchema);
      HoldsPositions(writer.View(), AllFields(rowSchema, []));
      while HasNextRow()
        invariant rowCount <= |rows| && m_rows == rows[rowCount..]
        invariant writer.Valid() && writer.rows == rows[..rowCount]
        invariant writer.m_current_chunk.m_chunk == chunk && writer.m_row_schema == rowSchema
            && writer.m_chunk_size == size
        invariant fresh(writer.m_current_chunk)
        invariant writer.View().consumed == Sum(sizes[..rowCount]) <= size
        decreases |m_rows|
      {
        var r := writer.WriteRow(m_rows[0]);
        NextFits(sizes, rowCount, size);
        if r.Written? {
          assert rows[..rowCount] + [rows[rowCount]] == rows[..rowCount + 1];
          rowCount := rowCount + 1;
          Advance();
        } else if r.NoRoom? {
          break;
        } else {
          return Some(r);
        }
      }
      chunk.row_count := rowCount;
      if rowCount == |rows| {
        NextFits(sizes, rowCount, size);
        assert rows[..rowCount] == rows && sizes[..rowCount] == sizes;
      }
      HoldsPositions(writer.View(), AllFields(rowSchema, rows[..rowCount]));
      HeldStored(writer.View(), AllFields(rowSchema, rows[..rowCount]));
      assert Sizes(rowSchema, rows[..rowCount]) == sizes[..rowCount];
      return None;
    }

    /** The chunk for one row is made as large as the row, and the row fills it. */
    method GetSingleRow(writer: SuperChunkWriter, schema: seq<Column>, partitionId: int) returns (chunk: Option<Chunk>)
      requires RowsOk(schema, m_rows) && (m_rows != [] ==> RowSize(schema, m_rows[0]) < TWO64)
      modifies writer
      ensures chunk == None <==> m_rows == [] || !Supported(schema)
      ensures chunk.Some? ==>
                && fresh(chunk.value) && chunk.value.id == 0 && chunk.value.partition_id == partitionId
                && ChunkHolds(chunk.value, schema, [m_rows[0]])
                && chunk.value.consumed_size == chunk.value.m_ptr.Length == RowSize(schema, m_rows[0])
    {
      hide Stored, RowSize, AllFields, TotalFix, TotalVar, FixedRowSize;
      if m_rows == [] {
        return None;
      }
      var chunkSize := ComputeRowSize(schema, m_rows[0]);
      var ptr := new Byte[chunkSize];
      var c := new Chunk(ptr, 0, partitionId);
      writer.Reset(c, schema);
      HoldsPositions(writer.View(), AllFields(schema, []));
      EmptyTotals(schema);
      var r := writer.WriteRow(m_rows[0]);
      if r.UnsupportedType? {
        return None;
      }
      ghost var one := [m_rows[0]];
      assert writer.rows == one;
      HoldsPositions(writer.View(), AllFields(schema, one));
      HeldStored(writer.View(), AllFields(schema, one));
      SumOfOne(Sizes(schema, one));
      return Some(c);
    }
  }

  lemma EmptyTotals(schema: seq<Column>)
    ensures TotalFix(AllFields(schema, [])) == 0 && TotalVar(AllFields(schema, [])) == 0
    ensures Sum([]) == 0
  {
  }

  lemma SumOfOne(sizes: seq<nat>)
    requires |sizes| == 1
    ensures Sum(sizes) == sizes[0]
  {
    assert sizes[1..] == [];
  }

  lemma HeldStored(img: Image, fields: seq<Field>)
    requires Holds(img, fields)
    ensures Stored(img.buf, fields)
  {
  }

  /** Whether the next row is among those that fit. */
  lemma NextFits(sizes: seq<nat>, n: nat, room: nat)
    requires n <= |sizes| && Sum(sizes[..n]) <= room
    ensures n <= Take(sizes, room) <= |sizes|
    ensures n < |sizes| ==> Sum(sizes[..n + 1]) == Sum(sizes[..n]) + sizes[n]
    ensures n < |sizes| ==> (Sum(sizes[..n]) + sizes[n] <= room <==> n < Take(sizes, room))
  {
    TakeIsLongest(sizes, room, n);
    if n < |sizes| {
      TakeIsLongest(sizes, room, n + 1);
      SumOfOneMore(sizes, n);
    }
  }
}
