/** Rows, their columns, and where and how their values lie in a chunk: the
    fixed parts one after another from the start of the buffer, the variable
    values one before another from its end. */
module Records {
  import opened Prelude
  import opened Bytes
  import opened Clock

  datatype ColumnType = Int64 | Int32 | Double | Variable | Fixed | Time | Date | DateTime | Unsupported

  datatype Column = Column(ctype: ColumnType, size: nat)

  /** A fetched value: the client's bytes, a TIME structure, or a DATE or
      DATETIME already converted to a number. */
  datatype Cell = Null | Raw(bytes: seq<Byte>) | Clock(time: MySqlTime) | Moment(num: int)

  type Row = seq<Cell>

  /** What reading a column back yields. */
  datatype Value = NullValue | IntValue(num: int) | DoubleValue(bytes: seq<Byte>) | Text(bytes: seq<Byte>)

  predicate CellOk(col: Column, cell: Cell) {
    cell.Null? ||
    match col.ctype
    case Int64 => cell.Raw? && |cell.bytes| == 8
    case Int32 => cell.Raw? && |cell.bytes| == 4
    case Double => cell.Raw? && |cell.bytes| == 8
    case Variable => cell.Raw? && |cell.bytes| < TWO32
    case Fixed => cell.Raw? && |cell.bytes| <= col.size
    case Time => cell.Clock? && Representable(cell.time)
    case Date => cell.Moment? && -TWO32 / 2 <= cell.num < TWO32 / 2
    case DateTime => cell.Moment? && -TWO64 / 2 <= cell.num < TWO64 / 2
    case Unsupported => true
  }

  predicate RowOk(schema: seq<Column>, row: Row) {
    |row| == |schema| && forall i :: 0 <= i < |row| ==> CellOk(schema[i], row[i])
  }

  predicate Supported(schema: seq<Column>) {
    forall i :: 0 <= i < |schema| ==> !schema[i].ctype.Unsupported?
  }

  // ------------------------------------------------------------------
  // Values read back
  // ------------------------------------------------------------------

  /** The bit pattern written for a null DOUBLE, and the test that reads it. */
  const DOUBLE_NULL: seq<Byte> := [0 as char, 0 as char, 0 as char, 0 as char, 0 as char, 254 as char, 255 as char,
      255 as char]

  predicate IsNaN(b: seq<Byte>)
    requires |b| == 8
  {
    && b[7] as int % 128 == 127 && b[6] as int / 16 == 15
    && (b[6] as int % 16 != 0 || exists i :: 0 <= i < 6 && b[i] as int != 0)
  }

  /** The same from the parts of an IEEE 754 binary64 number: all ones in the
      exponent, and a fraction other than zero. */
  predicate SpellsNaN(b: seq<Byte>) {
    && |b| == 8
    && b[7] as int % 0x80 * 0x10 + b[6] as int / 0x10 == 0x7ff
    && b[0] as int + 0x100 * b[1] as int + 0x1_0000 * b[2] as int + 0x100_0000 * b[3] as int
       + 0x1_0000_0000 * b[4] as int + 0x100_0000_0000 * b[5] as int
       + 0x1_0000_0000_0000 * (b[6] as int % 0x10) != 0
  }

  lemma NaNBytes(b: seq<Byte>)
    requires |b| == 8
    ensures IsNaN(b) <==> SpellsNaN(b)
  {
    if IsNaN(b) && b[6] as int % 16 == 0 {
      var i :| 0 <= i < 6 && b[i] as int != 0;
      assert i == 0 || i == 1 || i == 2 || i == 3 || i == 4 || i == 5;
    }
  }

  predicate AllBytes(b: seq<Byte>, c: char) {
    forall i :: 0 <= i < |b| ==> b[i] == c
  }

  function IntOrNull(v: int, missing: int): Value {
    if v == missing then NullValue else IntValue(v)
  }

  function TextOrNull(b: seq<Byte>): Value {
    if AllBytes(b, ' ') || AllBytes(b, '\0') then NullValue else Text(b)
  }

  function PadSpaces(b: seq<Byte>, size: nat): (r: seq<Byte>)
    requires |b| <= size
    ensures |r| == size
  {
    b + Repeat(' ', size - |b|)
  }

  /** The value of a cell once it has been through a chunk. */
  function Normal(col: Column, cell: Cell): Value
    requires CellOk(col, cell) && !col.ctype.Unsupported?
  {
    if cell.Null? then NullValue else
    match col.ctype
    case Int64 => IntOrNull(Signed64(cell.bytes), INT64_NULL)
    case Int32 => IntOrNull(Signed32(cell.bytes), INT32_NULL)
    case Double => if IsNaN(cell.bytes) then NullValue else DoubleValue(cell.bytes)
    case Variable => if cell.bytes == [] then NullValue else Text(cell.bytes)
    case Fixed => TextOrNull(PadSpaces(cell.bytes, col.size))
    case Time => IntOrNull(ToTimeCAS(cell.time), INT64_NULL)
    case Date => IntOrNull(cell.num, INT32_NULL)
    case DateTime => IntOrNull(cell.num, INT64_NULL)
  }

  // ------------------------------------------------------------------
  // Sizes
  // ------------------------------------------------------------------

  function SizeofAligned8(len: nat): (r: nat)
    ensures len <= r < len + 8 && r % 8 == 0
  {
    (len + 7) / 8 * 8
  }

  /** The length the client reports for a value; a null has length 0. */
  function LengthOf(cell: Cell): nat {
    match cell
    case Null => 0
    case Raw(b) => |b|
    case _ => 8
  }

  function FixedLen(col: Column): nat {
    match col.ctype
    case Variable => 16
    case Fixed => SizeofAligned8(col.size)
    case _ => 8
  }

  function VarLen(col: Column, cell: Cell): nat {
    if col.ctype.Variable? then LengthOf(cell) else 0
  }

  function RowSize(schema: seq<Column>, row: Row): nat
    requires |row| == |schema|
  {
    if schema == [] then 0
    else
      var n := |schema| - 1;
      RowSize(schema[..n], row[..n]) + FixedLen(schema[n]) + VarLen(schema[n], row[n])
  }

  /** rowSize's loop over the columns. */
  method ComputeRowSize(schema: seq<Column>, row: Row) returns (total: nat)
    requires |row| == |schema|
    ensures total == RowSize(schema, row)
  {
    total := 0;
    var i := 0;
    while i < |schema|
      invariant 0 <= i <= |schema|
      invariant total == RowSize(schema[..i], row[..i])
    {
      assert schema[..i + 1][..i] == schema[..i] && row[..i + 1][..i] == row[..i];
      match schema[i].ctype {
        case Variable => total := total + LengthOf(row[i]) + 16;
        case Fixed => total := total + SizeofAligned8(schema[i].size);
        case _ => total := total + 8;
      }
      i := i + 1;
    }
    assert schema[..i] == schema && row[..i] == row;
  }

  // ------------------------------------------------------------------
  // Layout
  // ------------------------------------------------------------------

  datatype Field = Field(col: Column, cell: Cell)

  function RowFields(schema: seq<Column>, row: Row): (r: seq<Field>)
    requires |row| == |schema|
    ensures |r| == |schema| && forall i :: 0 <= i < |r| ==> r[i] == Field(schema[i], row[i])
  {
    seq(|schema|, i requires 0 <= i < |schema| => Field(schema[i], row[i]))
  }

  ghost predicate RowsOk(schema: seq<Column>, rows: seq<Row>) {
    forall r :: 0 <= r < |rows| ==> RowOk(schema, rows[r])
  }

  function AllFields(schema: seq<Column>, rows: seq<Row>): seq<Field>
    requires forall r :: 0 <= r < |rows| ==> |rows[r]| == |schema|
  {
    if rows == [] then []
    else AllFields(schema, rows[..|rows| - 1]) + RowFields(schema, rows[|rows| - 1])
  }

  function TotalFix(fields: seq<Field>): nat {
    if fields == [] then 0 else TotalFix(fields[..|fields| - 1]) + FixedLen(fields[|fields| - 1].col)
  }

  function TotalVar(fields: seq<Field>): nat {
    if fields == [] then 0
    else TotalVar(fields[..|fields| - 1]) + VarLen(fields[|fields| - 1].col, fields[|fields| - 1].cell)
  }

  /** Field f, with its fixed part at offset off, and v bytes of variable values
      already at the end of the buffer when it was written. */
  ghost predicate FieldAt(buf: seq<Byte>, off: nat, v: nat, f: Field) {
    && off + FixedLen(f.col) + v + VarLen(f.col, f.cell) <= |buf|
    && CellOk(f.col, f.cell) && !f.col.ctype.Unsupported?
    && var n := |buf|;
    match f.col.ctype
    case Int64 => buf[off..off + 8] == if f.cell.Null? then Little64(INT64_NULL) else f.cell.bytes
    case Int32 => buf[off..off + 4] == if f.cell.Null? then Little32(INT32_NULL) else f.cell.bytes
    case Double => buf[off..off + 8] == if f.cell.Null? then DOUBLE_NULL else f.cell.bytes
    case Time => buf[off..off + 8] == Little64(if f.cell.Null? then INT64_NULL else ToTimeCAS(f.cell.time))
    case Date => buf[off..off + 4] == Little32(if f.cell.Null? then INT32_NULL else f.cell.num)
    case DateTime => buf[off..off + 8] == Little64(if f.cell.Null? then INT64_NULL else f.cell.num)
    case Fixed =>
      buf[off..off + SizeofAligned8(f.col.size)] ==
      if f.cell.Null? then Repeat('\0', SizeofAligned8(f.col.size))
          else PadSpaces(f.cell.bytes, SizeofAligned8(f.col.size))
    case Variable =>
      var len := LengthOf(f.cell);
      && buf[off..off + 8] == Little64(v + len)
      && buf[off + 8..off + 16] == Little64(len)
      && (f.cell.Raw? ==> buf[n - v - len..n - v] == f.cell.bytes)
  }

  /** All the fields are in the buffer, where the layout puts them. */
  ghost predicate Stored(buf: seq<Byte>, fields: seq<Field>) {
    && TotalFix(fields) + TotalVar(fields) <= |buf| < TWO64
    && forall j :: 0 <= j < |fields| ==> FieldAt(buf, TotalFix(fields[..j]), TotalVar(fields[..j]), fields[j])
  }

  lemma {:induction false} Totals(a: seq<Field>, b: seq<Field>)
    ensures TotalFix(a + b) == TotalFix(a) + TotalFix(b)
    ensures TotalVar(a + b) == TotalVar(a) + TotalVar(b)
  {
    if b == [] {
      assert a + b == a;
    } else {
      var n := |b| - 1;
      assert (a + b)[..|a + b| - 1] == a + b[..n];
      Totals(a, b[..n]);
    }
  }

  /** A row takes exactly its row size, fixed and variable parts together. */
  lemma {:induction false} RowTotals(schema: seq<Column>, row: Row)
    requires |row| == |schema|
    ensures TotalFix(RowFields(schema, row)) + TotalVar(RowFields(schema, row)) == RowSize(schema, row)
  {
    if schema != [] {
      var n := |schema| - 1;
      RowTotals(schema[..n], row[..n]);
      assert RowFields(schema, row)[..n] == RowFields(schema[..n], row[..n]);
    }
  }

  function FixedRowSize(schema: seq<Column>): nat {
    if schema == [] then 0 else FixedRowSize(schema[..|schema| - 1]) + FixedLen(schema[|schema| - 1])
  }

  lemma {:induction false} RowFix(schema: seq<Column>, row: Row)
    requires |row| == |schema|
    ensures TotalFix(RowFields(schema, row)) == FixedRowSize(schema)
  {
    if schema != [] {
      var n := |schema| - 1;
      RowFix(schema[..n], row[..n]);
      assert RowFields(schema, row)[..n] == RowFields(schema[..n], row[..n]);
    }
  }

  /** Row r's fixed part starts at r times the fixed row size. */
  lemma {:induction false} RowOffsets(schema: seq<Column>, rows: seq<Row>)
    requires forall r :: 0 <= r < |rows| ==> |rows[r]| == |schema|
    ensures TotalFix(AllFields(schema, rows)) == |rows| * FixedRowSize(schema)
  {
    hide RowFields, FixedRowSize;
    if rows == [] {
    } else {
      var n := |rows| - 1;
      RowOffsets(schema, rows[..n]);
      RowFix(schema, rows[n]);
      Totals(AllFields(schema, rows[..n]), RowFields(schema, rows[n]));
      OneMore(n, FixedRowSize(schema));
    }
  }
}
