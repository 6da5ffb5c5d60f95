/** The writer that turns a chunk back into text: every value goes through the
    chunk reader. */
module TsvWriter {
  import opened Prelude
  import opened Bytes
  import opened Clock
  import opened Records
  import opened ChunkReader
  import opened Joined
  import opened Tsv

  lemma NormalOk(col: Column, cell: Cell)
    requires CellOk(col, cell) && !col.ctype.Unsupported?
    ensures ValueOk(col.ctype, Normal(col, cell))
  {
  }

  function NormalRow(schema: seq<Column>, row: Row): (r: seq<Value>)
    requires RowOk(schema, row) && Supported(schema)
    ensures |r| == |schema| && forall i :: 0 <= i < |r| ==> r[i] == Normal(schema[i], row[i])
    ensures ValuesOk(schema, r)
  {
    var r := seq(|schema|, i requires 0 <= i < |schema| => Normal(schema[i], row[i]));
    assert ValuesOk(schema, r) by {
      forall i | 0 <= i < |schema| ensures ValueOk(schema[i].ctype, r[i]) {
        NormalOk(schema[i], row[i]);
      }
    }
    r
  }

  /** The values that reading a chunk of these rows yields. */
  ghost function NormalTable(schema: seq<Column>, rows: seq<Row>): (t: seq<seq<Value>>)
    requires RowsOk(schema, rows) && (rows != [] ==> Supported(schema))
    ensures |t| == |rows| && forall r :: 0 <= r < |rows| ==> t[r] == NormalRow(schema, rows[r])
    ensures TableOk(schema, t)
  {
    seq(|rows|, r requires 0 <= r < |rows| => NormalRow(schema, rows[r]))
  }

  class TsvTableWriter {
    var m_tsv_rows: string
    const m_formats: Formats

    constructor (formats: Formats)
      ensures m_tsv_rows == "" && m_formats == formats
    {
      m_tsv_rows := "";
      m_formats := formats;
    }

    /** One pass of the switch over the column types, up to the printing: from a
        stored field it always gets the normalised value that was written. */
    method ReadValue(reader: SuperChunkReader, col: Column, ghost v: nat, ghost f: Field)
        returns (ok: bool, value: Value)
      requires reader.Valid() && |reader.Buffer()| < TWO64 - 16
      requires f.col == col && FieldAt(reader.Buffer(), reader.m_current_chunk.m_offset, v, f)
      modifies reader`m_error, reader.m_current_chunk`m_offset, reader.m_current_chunk.m_chunk`consumed_size
      ensures ok && value == Normal(col, f.cell)
      ensures reader.Valid()
      ensures reader.m_current_chunk.m_offset == old(reader.m_current_chunk.m_offset) + FixedLen(col)
    {
      ghost var buf, off := reader.Buffer(), reader.m_current_chunk.m_offset;
      FieldRoom(buf, off, v, f);
      FieldReads(buf, off, v, f);
      hide FieldAt, FromLittle, Signed64, Signed32, IsNaN, AllBytes, Normal, CellOk, Spells32, Spells64, SpellsNaN;
      value := NullValue;
      var isnull;
      if col.ctype.Int64? || col.ctype.Time? || col.ctype.DateTime? {
        var n;
        ok, n, isnull := reader.ReadInt64();
        if !isnull {
          value := IntValue(n);
        }
      } else if col.ctype.Int32? || col.ctype.Date? {
        var n;
        ok, n, isnull := reader.ReadInt32();
        if !isnull {
          value := IntValue(n);
        }
      } else if col.ctype.Double? {
        var b;
        ok, b, isnull := reader.ReadFloat();
        NaNBytes(b);
        if !isnull {
          value := DoubleValue(b);
        }
      } else if col.ctype.Variable? {
        ok, value := ReadVariableText(reader, col, f);
      } else if col.ctype.Fixed? {
        ok, value := ReadFixedText(reader, col, f);
      } else {
        ok := false;
      }
    }

    method ReadVariableText(reader: SuperChunkReader, col: Column, ghost f: Field) returns (ok: bool, value: Value)
      requires reader.Valid() && |reader.Buffer()| < TWO64 - 16
      requires f.col == col && col.ctype.Variable? && CellOk(col, f.cell)
      requires reader.m_current_chunk.m_offset + FixedLen(col) <= |reader.Buffer()|
      requires Reads(reader.Buffer(), reader.m_current_chunk.m_offset, f)
      modifies reader`m_error, reader.m_current_chunk`m_offset
      ensures ok && value == Normal(col, f.cell)
      ensures reader.Valid()
      ensures reader.m_current_chunk.m_offset == old(reader.m_current_chunk.m_offset) + FixedLen(col)
    {
      hide FromLittle, AllBytes, Normal, CellOk, IsNaN;
      value := NullValue;
      ghost var buf, off := reader.Buffer(), reader.m_current_chunk.m_offset;
      NotWrapped(|buf|, FromLittle(buf[off..off + 8]), FromLittle(buf[off + 8..off + 16]));
      var at, len, isnull;
      ok, at, len, isnull := reader.ReadVariable();
      if !isnull {
        value := Text(reader.m_current_chunk.m_chunk.m_ptr[at..at + len]);
      }
    }

    method ReadFixedText(reader: SuperChunkReader, col: Column, ghost f: Field) returns (ok: bool, value: Value)
      requires reader.Valid() && |reader.Buffer()| < TWO64 - 16
      requires f.col == col && col.ctype.Fixed? && CellOk(col, f.cell)
      requires reader.m_current_chunk.m_offset + FixedLen(col) <= |reader.Buffer()|
      requires Reads(reader.Buffer(), reader.m_current_chunk.m_offset, f)
      modifies reader`m_error, reader.m_current_chunk`m_offset
      ensures ok && value == Normal(col, f.cell)
      ensures reader.Valid()
      ensures reader.m_current_chunk.m_offset == old(reader.m_current_chunk.m_offset) + FixedLen(col)
    {
      hide FromLittle, AllBytes, Normal, CellOk;
      value := NullValue;
      var b, isnull;
      ok, b, isnull := reader.ReadFixed(col.size);
      if !isnull {
        value := Text(b);
      }
    }

    /** Appends the text of all the chunk's rows.  Every read succeeds, and the
        values printed are those that were written, normalised. */
    method ChunkToTSV(reader: SuperChunkReader, rowCount: nat, ghost rows: seq<Row>) returns (ok: bool)
      requires reader.Valid() && reader.m_current_chunk.m_offset == 0 && |reader.Buffer()| < TWO64 - 16
      requires rowCount == |rows| && RowsOk(reader.m_row_schema, rows)
          && (rows != [] ==> Supported(reader.m_row_schema))
      requires Stored(reader.Buffer(), AllFields(reader.m_row_schema, rows))
      modifies `m_tsv_rows, reader`m_error, reader.m_current_chunk`m_offset,
          reader.m_current_chunk.m_chunk`consumed_size
      ensures ok && m_tsv_rows ==
              old(m_tsv_rows) + TableText(reader.m_row_schema, NormalTable(reader.m_row_schema, rows), m_formats)
    {
      hide FieldAt, Stored, Supported, CellOk, TotalFix, Normal, ValueOk, CellText, AllFields, Join;
      ghost var schema := reader.m_row_schema;
      ghost var table := NormalTable(schema, rows);
      ghost var lines := RowTexts(schema, table, m_formats);
      ghost var before := m_tsv_rows;
      var row := 0;
      NothingYet(schema, rows);
      JoinNothing("\n");
      assert lines[..0] == [];
      while row < rowCount
        invariant row <= rowCount && reader.Valid() && reader.m_current_chunk == old(reader.m_current_chunk)
        invariant reader.m_row_schema == schema && reader.Buffer() == old(reader.Buffer())
        invariant reader.m_current_chunk.m_offset == TotalFix(AllFields(schema, rows[..row]))
        invariant m_tsv_rows == before + Join(lines[..row], "\n")
      {
        if row > 0 {
          m_tsv_rows := m_tsv_rows + "\n";
        }
        ok := RowToTSV(reader, rows, row);
        if !ok {
          return false;
        }
        JoinSnoc(lines[..row], lines[row], "\n");
        assert lines[..row + 1] == lines[..row] + [lines[row]];
        row := row + 1;
      }
      assert lines[..row] == lines && rows[..row] == rows;
      return true;
    }

    /** The loop over one row's columns. */
    method RowToTSV(reader: SuperChunkReader, ghost rows: seq<Row>, ghost row: nat) returns (ok: bool)
      requires reader.Valid() && |reader.Buffer()| < TWO64 - 16
      requires row < |rows| && RowsOk(reader.m_row_schema, rows) && Supported(reader.m_row_schema)
      requires Stored(reader.Buffer(), AllFields(reader.m_row_schema, rows))
      requires reader.m_current_chunk.m_offset == TotalFix(AllFields(reader.m_row_schema, rows[..row]))
      modifies `m_tsv_rows, reader`m_error, reader.m_current_chunk`m_offset,
          reader.m_current_chunk.m_chunk`consumed_size
      ensures ok && reader.Valid()
      ensures reader.m_current_chunk.m_offset == TotalFix(AllFields(reader.m_row_schema, rows[..row + 1]))
      ensures m_tsv_rows ==
              old(m_tsv_rows) + RowText(reader.m_row_schema, NormalRow(reader.m_row_schema, rows[row]), m_formats)
    {
      hide FieldAt, Stored, CellOk, TotalFix, TotalVar, Normal, ValueOk, CellText, AllFields, Join;
      ghost var schema := reader.m_row_schema;
      ghost var texts := CellTexts(schema, NormalRow(schema, rows[row]), m_formats);
      ghost var before, buf := m_tsv_rows, reader.Buffer();
      var col := 0;
      RowBegins(schema, rows, row);
      assert texts[..0] == [];
      JoinNothing("\t");
      while col < |reader.m_row_schema|
        invariant col <= |schema| && reader.Valid() && reader.m_current_chunk == old(reader.m_current_chunk)
        invariant reader.m_row_schema == schema && reader.Buffer() == buf
        invariant reader.m_current_chunk.m_offset == TotalFix(FieldsBefore(schema, rows, row, col))
        invariant m_tsv_rows == before + Join(texts[..col], "\t")
      {
        if col > 0 {
          m_tsv_rows := m_tsv_rows + "\t";
        }
        NextField(buf, schema, rows, row, col);
        NormalOk(schema[col], rows[row][col]);
        var value;
        ok, value := ReadValue(reader, reader.m_row_schema[col], TotalVar(FieldsBefore(schema, rows, row, col)),
            Field(schema[col], rows[row][col]));
        if !ok {
          return false;
        }
        m_tsv_rows := m_tsv_rows + CellText(reader.m_row_schema[col].ctype, value, m_formats);
        JoinSnoc(texts[..col], texts[col], "\t");
        assert texts[..col + 1] == texts[..col] + [texts[col]];
        col := col + 1;
      }
      assert texts[..col] == texts;
      return true;
    }
  }

  // ------------------------------------------------------------------
  // Where the reader finds the next field
  // ------------------------------------------------------------------

  ghost function FieldsBefore(schema: seq<Column>, rows: seq<Row>, row: nat, col: nat): seq<Field>
    requires RowsOk(schema, rows) && row < |rows| && col <= |schema|
  {
    AllFields(schema, rows[..row]) + RowFields(schema, rows[row])[..col]
  }

  lemma NotWrapped(n: nat, distance: nat, len: nat)
    requires n < TWO64
    ensures len <= distance <= n ==> (n - distance) % TWO64 == n - distance && (n - distance + len) % TWO64 <= n
  {
  }

  lemma FieldRoom(buf: seq<Byte>, off: nat, v: nat, f: Field)
    requires FieldAt(buf, off, v, f)
    ensures off + FixedLen(f.col) <= |buf|
  {
  }

  lemma NothingYet(schema: seq<Column>, rows: seq<Row>)
    ensures TotalFix(AllFields(schema, rows[..0])) == 0
  {
  }

  lemma JoinNothing(sep: string)
    ensures Join([], sep) == ""
  {
  }

  lemma RowBegins(schema: seq<Column>, rows: seq<Row>, row: nat)
    requires RowsOk(schema, rows) && row < |rows|
    ensures FieldsBefore(schema, rows, row, 0) == AllFields(schema, rows[..row])
    ensures FieldsBefore(schema, rows, row, |schema|) == AllFields(schema, rows[..row + 1])
  {
    hide CellOk, RowFields;
    assert rows[..row + 1][..row] == rows[..row] && rows[..row + 1][row] == rows[row];
    var fields := RowFields(schema, rows[row]);
    assert fields[..|schema|] == fields && fields[..0] == [];
  }

  lemma {:induction false} RowsPrefix(schema: seq<Column>, rows: seq<Row>, row: nat)
    requires RowsOk(schema, rows) && row <= |rows|
    ensures AllFields(schema, rows[..row]) <= AllFields(schema, rows)
    decreases |rows|
  {
    if row == |rows| {
      assert rows[..row] == rows;
    } else {
      var n := |rows| - 1;
      RowsPrefix(schema, rows[..n], row);
      assert rows[..n][..row] == rows[..row];
    }
  }

  lemma StoredAt(buf: seq<Byte>, fields: seq<Field>, before: seq<Field>, f: Field)
    requires Stored(buf, fields) && before + [f] <= fields
    ensures FieldAt(buf, TotalFix(before), TotalVar(before), f)
  {
    var j := |before|;
    assert fields[..j] == before && fields[j] == f;
  }

  lemma NextField(buf: seq<Byte>, schema: seq<Column>, rows: seq<Row>, row: nat, col: nat)
    requires RowsOk(schema, rows) && row < |rows| && col < |schema| && Stored(buf, AllFields(schema, rows))
    ensures var before, f := FieldsBefore(schema, rows, row, col), Field(schema[col], rows[row][col]);
            && FieldAt(buf, TotalFix(before), TotalVar(before), f)
            && TotalFix(FieldsBefore(schema, rows, row, col + 1)) == TotalFix(before) + FixedLen(schema[col])
  {
    hide FieldAt, Stored, AllFields;
    var before, f := FieldsBefore(schema, rows, row, col), Field(schema[col], rows[row][col]);
    var fields := RowFields(schema, rows[row]);
    assert fields[..col + 1] == fields[..col] + [f];
    assert FieldsBefore(schema, rows, row, col + 1) == before + [f];
    Totals(before, [f]);
    assert [f][..0] == [];
    RowBegins(schema, rows, row);
    RowsPrefix(schema, rows, row + 1);
    assert before + [f] <= FieldsBefore(schema, rows, row, |schema|);
    StoredAt(buf, AllFields(schema, rows), before, f);
  }

  /** Where the value of row r and column c starts: r row lengths and c columns in. */
  function FieldOffset(schema: seq<Column>, row: nat, col: nat): nat
    requires col < |schema|
  {
    row * FixedRowSize(schema) + FixedRowSize(schema[..col])
  }

  ghost predicate ReadsAt(buf: seq<Byte>, off: nat, f: Field) {
    off + FixedLen(f.col) <= |buf| && CellOk(f.col, f.cell) && !f.col.ctype.Unsupported? && Reads(buf, off, f)
  }

  /** The codec's round trip, position by position: in a chunk that holds these
      rows, reading where a value starts gives the normalised value that was written. */
  lemma RowsReadBack(buf: seq<Byte>, schema: seq<Column>, rows: seq<Row>, row: nat, col: nat)
    requires RowsOk(schema, rows) && row < |rows| && col < |schema| && Stored(buf, AllFields(schema, rows))
    ensures ReadsAt(buf, FieldOffset(schema, row, col), Field(schema[col], rows[row][col]))
  {
    hide FieldAt, ReadsAt, AllFields, TotalFix, TotalVar, Stored, FieldsBefore, FieldOffset, CellOk;
    var before, f := FieldsBefore(schema, rows, row, col), Field(schema[col], rows[row][col]);
    NextField(buf, schema, rows, row, col);
    OffsetOf(schema, rows, row, col);
    BufferSmall(buf, AllFields(schema, rows));
    FieldReadsAt(buf, TotalFix(before), TotalVar(before), f);
  }

  lemma OffsetOf(schema: seq<Column>, rows: seq<Row>, row: nat, col: nat)
    requires RowsOk(schema, rows) && row < |rows| && col < |schema|
    ensures TotalFix(FieldsBefore(schema, rows, row, col)) == FieldOffset(schema, row, col)
  {
    hide CellOk, AllFields, TotalFix, TotalVar, RowFields, FixedRowSize;
    RowOffsets(schema, rows[..row]);
    RowFix(schema[..col], rows[row][..col]);
    FieldsOfPrefix(schema, rows[row], col);
    Totals(AllFields(schema, rows[..row]), RowFields(schema, rows[row])[..col]);
  }

  lemma FieldReadsAt(buf: seq<Byte>, off: nat, v: nat, f: Field)
    requires FieldAt(buf, off, v, f) && |buf| < TWO64
    ensures ReadsAt(buf, off, f)
  {
    hide Reads;
    FieldReads(buf, off, v, f);
  }

  lemma FieldsOfPrefix(schema: seq<Column>, row: Row, col: nat)
    requires |row| == |schema| && col <= |schema|
    ensures RowFields(schema, row)[..col] == RowFields(schema[..col], row[..col])
  {
  }

  lemma BufferSmall(buf: seq<Byte>, fields: seq<Field>)
    requires Stored(buf, fields)
    ensures |buf| < TWO64
  {
  }

  /** A TIME value whose seconds survive the narrowing that printing them takes. */
  predicate Printable(cell: Cell) {
    cell.Clock? ==> -0x8000_0000 * MICROS < ToTimeCAS(cell.time) < 0x8000_0000 * MICROS
  }

  ghost predicate AllPrintable(schema: seq<Column>, rows: seq<Row>)
    requires RowsOk(schema, rows)
  {
    forall r, c :: 0 <= r < |rows| && 0 <= c < |schema| ==> Printable(rows[r][c])
  }

  /** From rows to text and back: the text of the rows' normalised values gives
      these values back exactly when the rows' times are printable. */
  lemma PrintedRowsReadBack(schema: seq<Column>, rows: seq<Row>, f: Formats)
    requires schema != [] && RowsOk(schema, rows) && (rows != [] ==> Supported(schema)) && Readable(f)
    ensures Read(schema, TableText(schema, NormalTable(schema, rows), f), f) == Some(NormalTable(schema, rows))
            <==> AllPrintable(schema, rows)
  {
    hide Read, TableText, Readable, Printable;
    var table := NormalTable(schema, rows);
    TsvRoundTrip(schema, table, f);
    forall r | 0 <= r < |rows|
      ensures ShortTimes(schema, table[r]) <==> forall c :: 0 <= c < |schema| ==> Printable(rows[r][c])
    {
      RowPrintable(schema, rows[r]);
    }
  }

  lemma RowPrintable(schema: seq<Column>, row: Row)
    requires RowOk(schema, row) && Supported(schema)
    ensures ShortTimes(schema, NormalRow(schema, row)) <==> forall c :: 0 <= c < |schema| ==> Printable(row[c])
  {
    hide Normal, ToTimeCAS, CellOk;
    var values := NormalRow(schema, row);
    forall c | 0 <= c < |schema| ensures ShortTime(schema[c].ctype, values[c]) <==> Printable(row[c]) {
      CellPrintable(schema[c], row[c]);
    }
  }

  lemma CellPrintable(col: Column, cell: Cell)
    requires CellOk(col, cell) && !col.ctype.Unsupported?
    ensures ShortTime(col.ctype, Normal(col, cell)) <==> Printable(cell)
  {
    hide WrappedSeconds;
    if cell.Clock? {
      TimeRange(cell.time);
    }
  }
}
