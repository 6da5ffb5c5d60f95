/** The way of a result set's rows through a chunk into text. */
module ChunkText {
  import opened Prelude
  import opened Bytes
  import opened Records
  import opened SuperChunks
  import opened ChunkWriter
  import opened ChunkReader
  import opened ChunkSplit
  import opened Chunking
  import opened Tsv
  import opened TsvWriter

  /** Fills a new chunk from the cursor, reads it with a new reader and prints
      it.  The text, read back, gives the normalised values of the rows the
      cursor has moved over, exactly when their times can be printed. */
  method PrintNextChunk(conn: S2Connection, writer: SuperChunkWriter, size: nat, schema: seq<Column>, formats: Formats)
    returns (text: Option<string>)
    requires size < TWO64 - 16 && schema != [] && RowsOk(schema, conn.m_rows)
    modifies conn, writer
    ensures var rows := old(conn.m_rows);
            var n := Take(Sizes(schema, rows), size);
            if rows != [] && (n == 0 || !Supported(schema)) then text == None
            else
              && text.Some? && conn.m_rows == rows[n..]
              && (Readable(formats) ==>
                    (Read(schema, text.value, formats) == Some(NormalTable(schema, rows[..n])) <==>
                     AllPrintable(schema, rows[..n])))
  {
    hide Stored, TableText, Read, Readable, AllPrintable, CellOk, RowSize, TotalFix, TotalVar, Take, Sum, AllFields;
    ghost var rows := conn.m_rows;
    var ptr := new Byte[size];
    var chunk := new Chunk(ptr, 0, 0);
    var thrown := conn.NextChunk(writer, chunk, schema);
    if thrown.Some? {
      return None;
    }
    ghost var mine := rows[..Take(Sizes(schema, rows), size)];
    var reader := new SuperChunkReader(chunk, schema);
    var printer := new TsvTableWriter(formats);
    var ok := printer.ChunkToTSV(reader, chunk.row_count, mine);
    if !ok {
      return None;
    }
    text := Some(printer.m_tsv_rows);
    assert text.value == TableText(schema, NormalTable(schema, mine), formats);
    if Readable(formats) {
      PrintedRowsReadBack(schema, mine, formats);
    }
  }
}
