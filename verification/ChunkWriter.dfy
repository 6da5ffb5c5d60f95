/** The writer that packs rows into a chunk. */
module ChunkWriter {
  import opened Bytes
  import opened Clock
  import opened Records
  import opened ChunkImage
  import opened SuperChunks

  /** Written, refused for lack of room, or one of the two exceptions. */
  datatype WriteResult = Written | NoRoom | ChunkTooSmall(chunkSize: nat, required: nat) | UnsupportedType

  class SuperChunkWriter {
    var m_chunk_size: nat
    var m_row_fixed_size: nat
    var m_column_count: nat
    var m_current_chunk: SuperChunk
    var m_row_offset: nat
    var m_row_column_count: nat
    var m_row_schema: seq<Column>
    ghost var rows: seq<Row>

    ghost function View(): Image
      reads this, m_current_chunk, m_current_chunk.m_chunk, m_current_chunk.m_chunk.m_ptr
    {
      m_current_chunk.View()
    }

    /** The chunk holds exactly the rows written since Reset. */
    ghost predicate Valid()
      reads this, m_current_chunk, m_current_chunk.m_chunk, m_current_chunk.m_chunk.m_ptr
    {
      && m_chunk_size == m_current_chunk.m_chunk.m_ptr.Length < TWO64
      && RowsOk(m_row_schema, rows)
      && (rows != [] ==> Supported(m_row_schema))
      && Holds(View(), AllFields(m_row_schema, rows))
      && m_current_chunk.m_chunk.row_count == |rows|
      && m_row_offset == m_current_chunk.m_offset == |rows| * FixedRowSize(m_row_schema)
      && m_row_fixed_size == (if rows == [] then 0 else FixedRowSize(m_row_schema))
      && m_row_column_count == 0
    }

    constructor (chunk: Chunk, rowSchema: seq<Column>)
      ensures fresh(m_current_chunk) && m_current_chunk.m_chunk == chunk
      ensures m_row_schema == rowSchema && rows == []
      ensures Fresh(chunk) ==> Valid()
    {
      m_row_schema := rowSchema;
      m_row_fixed_size := 0;
      m_column_count := 0;
      m_current_chunk := new SuperChunk(chunk);
      m_row_offset := 0;
      m_row_column_count := 0;
      m_chunk_size := chunk.m_ptr.Length;
      rows := [];
    }

    /** Reset leaves the chunk's own counters alone: the writer is in order
        again only on a chunk as NewChunk makes it. */
    method Reset(chunk: Chunk, rowSchema: seq<Column>)
      modifies this
      ensures fresh(m_current_chunk) && m_current_chunk.m_chunk == chunk
      ensures m_row_schema == rowSchema && rows == []
      ensures Fresh(chunk) ==> Valid()
    {
      m_row_schema := rowSchema;
      m_row_fixed_size := 0;
      m_column_count := 0;
      m_current_chunk := new SuperChunk(chunk);
      m_row_offset := 0;
      m_row_column_count := 0;
      m_chunk_size := chunk.m_ptr.Length;
      rows := [];
    }

    method HasEnoughSpace(requestedSize: nat) returns (r: bool)
      requires m_current_chunk.m_offset + m_current_chunk.m_chunk.variable_offset <= m_chunk_size
      ensures r <==> m_current_chunk.m_offset + m_current_chunk.m_chunk.variable_offset + requestedSize <= m_chunk_size
    {
      r := m_chunk_size - m_current_chunk.m_chunk.variable_offset - m_current_chunk.m_offset >= requestedSize;
    }

    method RecordColumn()
      modifies `m_column_count, `m_row_column_count
      ensures m_row_column_count == old(m_row_column_count) + 1
      ensures m_column_count == old(m_column_count) + if m_row_fixed_size == 0 then 1 else 0
    {
      if m_row_fixed_size == 0 {
        m_column_count := m_column_count + 1;
      }
      m_row_column_count := m_row_column_count + 1;
    }

    /** Write8 and the typed stores: WriteInt64, WriteDouble and their nulls. */
    method Write8(val: seq<Byte>)
      requires |val| == 8 && Fits(View(), 8)
      modifies `m_column_count, `m_row_column_count, m_current_chunk`m_offset
      modifies m_current_chunk.m_chunk`consumed_size, m_current_chunk.m_chunk.m_ptr
      ensures View() == Write(old(View()), val)
    {
      RecordColumn();
      m_current_chunk.WriteTyped(val);
    }

    /** WriteInt32 and its null: four bytes and four unwritten ones. */
    method Write4(val: seq<Byte>)
      requires |val| == 4 && Fits(View(), 8)
      modifies `m_column_count, `m_row_column_count, m_current_chunk`m_offset
      modifies m_current_chunk.m_chunk`consumed_size, m_current_chunk.m_chunk.m_ptr
      ensures View() == Pad(Write(old(View()), val), 4)
    {
      RecordColumn();
      m_current_chunk.WriteTyped(val);
      m_current_chunk.Pad(4);
    }

    method WriteFixed(val: seq<Byte>, field_size: nat)
      requires |val| <= field_size && Fits(View(), SizeofAligned8(field_size))
      modifies `m_column_count, `m_row_column_count, m_current_chunk`m_offset
      modifies m_current_chunk.m_chunk`consumed_size, m_current_chunk.m_chunk.m_ptr
      ensures View() == PutFixed(old(View()), val, field_size)
    {
      RecordColumn();
      m_current_chunk.Write(val);
      var alignedLen := SizeofAligned8(field_size);
      m_current_chunk.PadFilled(alignedLen - |val|, ' ');
    }

    method WriteFixedNull(len: nat)
      requires Fits(View(), SizeofAligned8(len))
      modifies `m_column_count, `m_row_column_count, m_current_chunk`m_offset
      modifies m_current_chunk.m_chunk`consumed_size, m_current_chunk.m_chunk.m_ptr
      ensures View() == PadWith(old(View()), SizeofAligned8(len), '\0')
    {
      RecordColumn();
      m_current_chunk.PadFilled(SizeofAligned8(len), '\0');
    }

    method WriteVariable(val: seq<Byte>)
      requires m_chunk_size == m_current_chunk.m_chunk.m_ptr.Length && Fits(View(), 16 + |val|)
      modifies `m_column_count, `m_row_column_count, m_current_chunk`m_offset, m_current_chunk.m_chunk`variable_offset
      modifies m_current_chunk.m_chunk`consumed_size, m_current_chunk.m_chunk.m_ptr
      ensures View() == PutVariable(old(View()), val)
    {
      hide Splice, Little64;
      RecordColumn();
      m_current_chunk.IncrVariableOffset(|val|);
      m_current_chunk.WriteTyped(Little64(m_current_chunk.m_chunk.variable_offset));
      m_current_chunk.WriteTyped(Little64(|val|));
      m_current_chunk.WriteAt(m_chunk_size - m_current_chunk.m_chunk.variable_offset, val);
    }

    /** One pass of the switch in WriteRow. */
    method WriteColumn(col: Column, cell: Cell)
      requires m_chunk_size == m_current_chunk.m_chunk.m_ptr.Length
      requires CellOk(col, cell) && !col.ctype.Unsupported?
      requires Fits(View(), FixedLen(col) + VarLen(col, cell))
      modifies `m_column_count, `m_row_column_count, m_current_chunk`m_offset, m_current_chunk.m_chunk`variable_offset
      modifies m_current_chunk.m_chunk`consumed_size, m_current_chunk.m_chunk.m_ptr
      ensures View() == PutField(old(View()), Field(col, cell))
    {
      match col.ctype {
        case Int64 =>
          if cell.Null? {
            Write8(Little64(INT64_NULL));
          } else {
            Write8(cell.bytes);
          }
        case Int32 =>
          if cell.Null? {
            Write4(Little32(INT32_NULL));
          } else {
            Write4(cell.bytes);
          }
        case DateTime =>
          if cell.Null? {
            Write8(Little64(INT64_NULL));
          } else {
            Write8(Little64(cell.num));
          }
        case Date =>
          if cell.Null? {
            Write4(Little32(INT32_NULL));
          } else {
            Write4(Little32(cell.num));
          }
        case Time =>
          if cell.Null? {
            Write8(Little64(INT64_NULL));
          } else {
            Write8(Little64(ToTimeCAS(cell.time)));
          }
        case Double =>
          if cell.Null? {
            Write8(DOUBLE_NULL);
          } else {
            Write8(cell.bytes);
          }
        case Fixed =>
          if cell.Null? {
            WriteFixedNull(col.size);
          } else {
            WriteFixed(cell.bytes, col.size);
          }
        case Variable =>
          if cell.Null? {
            WriteVariable([]);
          } else {
            WriteVariable(cell.bytes);
          }
      }
    }

    method WriteRowEnd()
      requires m_row_fixed_size == 0 ==> m_row_offset == 0
      modifies `m_row_fixed_size, `m_row_offset, `m_row_column_count, m_current_chunk.m_chunk`row_count
      ensures m_row_fixed_size == if old(m_row_fixed_size) == 0 then m_current_chunk.m_offset else old(m_row_fixed_size)
      ensures m_row_offset == m_current_chunk.m_offset && m_row_column_count == 0
      ensures m_current_chunk.m_chunk.row_count == old(m_current_chunk.m_chunk.row_count) + 1
    {
      if m_row_fixed_size == 0 {
        assert m_row_offset == 0;
        m_row_fixed_size := m_current_chunk.m_offset;
      }
      m_current_chunk.m_chunk.row_count := m_current_chunk.m_chunk.row_count + 1;
      m_row_offset := m_current_chunk.m_offset;
      m_row_column_count := 0;
    }

    /** A row is taken exactly when its row size fits the room left, and then
        it is stored behind the earlier rows, none of which is disturbed, using
        up exactly its row size.  A row that does not fit is refused, or is an
        error if the chunk is still empty. */
    method WriteRow(row: Row) returns (r: WriteResult)
      requires Valid() && RowOk(m_row_schema, row)
      modifies this, m_current_chunk, m_current_chunk.m_chunk, m_current_chunk.m_chunk.m_ptr
      ensures m_current_chunk == old(m_current_chunk) && m_row_schema == old(m_row_schema)
          && m_chunk_size == old(m_chunk_size)
      ensures var fits := old(View().consumed) + RowSize(m_row_schema, row) <= m_chunk_size;
              r == if fits then (if Supported(m_row_schema) then Written else UnsupportedType)
                   else if old(rows) == [] then ChunkTooSmall(m_chunk_size, RowSize(m_row_schema, row))
                   else NoRoom
      ensures !r.UnsupportedType? ==> Valid()
      ensures rows == if r.Written? then old(rows) + [row] else old(rows)
      ensures r.Written? ==> View().consumed == old(View().consumed) + RowSize(m_row_schema, row)
      ensures r.NoRoom? || r.ChunkTooSmall? ==> View() == old(View())
      ensures r.UnsupportedType? ==> m_current_chunk.m_chunk.row_count == old(m_current_chunk.m_chunk.row_count)
    {
      hide Stored, RowSize, TotalFix, TotalVar, FixedRowSize, AllFields, RowFields, CellOk;
      var total_size := ComputeRowSize(m_row_schema, row);
      HoldsPositions(View(), AllFields(m_row_schema, rows));
      var enough := HasEnoughSpace(total_size);
      if !enough {
        if m_current_chunk.m_chunk.row_count == 0 {
          return ChunkTooSmall(m_chunk_size, total_size);
        }
        return NoRoom;
      }
      RowTotals(m_row_schema, row);
      var supported := WriteColumns(row, AllFields(m_row_schema, rows));
      if !supported {
        return UnsupportedType;
      }
      RowWritten(m_row_schema, rows, row);
      HoldsPositions(View(), AllFields(m_row_schema, rows + [row]));
      WriteRowEnd();
      rows := rows + [row];
      r := Written;
    }

    /** WriteRow's loop over the columns; false is the exception it throws at
        the first column of an unsupported type. */
    method WriteColumns(row: Row, ghost before: seq<Field>) returns (supported: bool)
      requires m_chunk_size == m_current_chunk.m_chunk.m_ptr.Length
      requires RowOk(m_row_schema, row) && Holds(View(), before)
      requires TotalFix(before) + TotalVar(before) + RowSize(m_row_schema, row) <= m_chunk_size
      modifies `m_column_count, `m_row_column_count, m_current_chunk`m_offset, m_current_chunk.m_chunk`variable_offset
      modifies m_current_chunk.m_chunk`consumed_size, m_current_chunk.m_chunk.m_ptr
      ensures supported <==> Supported(m_row_schema)
      ensures supported ==> Holds(View(), before + RowFields(m_row_schema, row))
    {
      hide Holds, FieldAt, PutField, RowSize, FixedLen, VarLen, TotalFix, TotalVar;
      ghost var fields := RowFields(m_row_schema, row);
      var i := 0;
      assert before + fields[..0] == before;
      while i < |m_row_schema|
        invariant 0 <= i <= |m_row_schema|
        invariant Holds(View(), before + fields[..i])
        invariant forall x :: 0 <= x < i ==> !m_row_schema[x].ctype.Unsupported?
      {
        if m_row_schema[i].ctype.Unsupported? {
          return false;
        }
        RoomForField(before, m_row_schema, row, i, m_chunk_size);
        HoldsPositions(View(), before + fields[..i]);
        PutFieldHolds(View(), before + fields[..i], fields[i]);
        assert before + fields[..i] + [fields[i]] == before + fields[..i + 1];
        WriteColumn(m_row_schema[i], row[i]);
        i := i + 1;
      }
      assert before + fields[..i] == before + fields;
      return true;
    }
  }

  /** When a whole row fits, so does each of its fields in turn. */
  lemma RoomForField(before: seq<Field>, schema: seq<Column>, row: Row, i: nat, size: nat)
    requires |row| == |schema| && i < |schema|
    requires TotalFix(before) + TotalVar(before) + RowSize(schema, row) <= size
    ensures var fields := RowFields(schema, row); var sofar := before + fields[..i];
            TotalFix(sofar) + FixedLen(schema[i]) + VarLen(schema[i], row[i]) + TotalVar(sofar) <= size
  {
    hide TotalFix, TotalVar, RowSize;
    var fields := RowFields(schema, row);
    RowTotals(schema, row);
    Totals(before, fields[..i]);
    PrefixBounds(fields, i);
  }

  /** The totals after one more row. */
  lemma RowWritten(schema: seq<Column>, rows: seq<Row>, row: Row)
    requires RowsOk(schema, rows) && RowOk(schema, row)
    ensures var rows' := rows + [row];
            && RowsOk(schema, rows')
            && AllFields(schema, rows') == AllFields(schema, rows) + RowFields(schema, row)
            && TotalFix(AllFields(schema, rows')) == |rows'| * FixedRowSize(schema)
            && TotalFix(AllFields(schema, rows')) + TotalVar(AllFields(schema, rows'))
               == TotalFix(AllFields(schema, rows)) + TotalVar(AllFields(schema, rows)) + RowSize(schema, row)
            && (rows == [] ==> TotalFix(AllFields(schema, rows')) == FixedRowSize(schema))
  {
    hide TotalFix, TotalVar, RowSize, FixedRowSize, RowFields;
    var rows' := rows + [row];
    assert rows'[..|rows|] == rows;
    RowOffsets(schema, rows');
    RowTotals(schema, row);
    Totals(AllFields(schema, rows), RowFields(schema, row));
  }
}
