/** The reader that takes a chunk's values back out, column by column. */
module ChunkReader {
  import opened Bytes
  import opened Clock
  import opened Records
  import opened SuperChunks

  /** True for a non-empty buffer of spaces only (CHAR) or zero bytes only (BINARY). */
  method IsNullBuffer(buff: seq<Byte>) returns (r: bool)
    requires |buff| > 0
    ensures r <==> AllBytes(buff, ' ') || AllBytes(buff, '\0')
  {
    var firstChar := buff[0];
    if firstChar != ' ' && firstChar != '\0' {
      return false;
    }
    var i := 1;
    while i < |buff|
      invariant 1 <= i <= |buff|
      invariant forall x :: 0 <= x < i ==> buff[x] == firstChar
    {
      if buff[i] != firstChar {
        return false;
      }
      i := i + 1;
    }
    return true;
  }

  class SuperChunkReader {
    var m_row_schema: seq<Column>
    var m_current_chunk: SuperChunk
    var m_error: string

    /** Where the reader stands in its buffer. */
    ghost predicate Valid()
      reads this, m_current_chunk, m_current_chunk.m_chunk
    {
      m_current_chunk.m_offset <= m_current_chunk.m_chunk.m_ptr.Length < TWO64
    }

    ghost function Buffer(): seq<Byte>
      reads this, m_current_chunk, m_current_chunk.m_chunk, m_current_chunk.m_chunk.m_ptr
    {
      m_current_chunk.m_chunk.m_ptr[..]
    }

    constructor (chunk: Chunk, rowSchema: seq<Column>)
      ensures fresh(m_current_chunk) && m_current_chunk.m_chunk == chunk && m_current_chunk.m_offset == 0
      ensures m_row_schema == rowSchema
    {
      m_current_chunk := new SuperChunk(chunk);
      m_row_schema := rowSchema;
      m_error := "";
    }

    method Reset(chunk: Chunk, rowSchema: seq<Column>)
      modifies `m_current_chunk, `m_row_schema
      ensures fresh(m_current_chunk) && m_current_chunk.m_chunk == chunk && m_current_chunk.m_offset == 0
      ensures m_row_schema == rowSchema
    {
      m_current_chunk := new SuperChunk(chunk);
      m_row_schema := rowSchema;
    }

    /** A range whose end is a 64-bit number passes exactly when it lies in the
        buffer.  The sum is unsigned: past 2 to the 64th the check looks at the
        end of the range alone, counted from the start of the buffer again. */
    method CanRead(offset: nat, len: nat) returns (r: bool)
      requires offset < TWO64 && len < TWO64
      ensures offset + len < TWO64 ==> (r <==> offset + len <= |Buffer()|)
      ensures offset + len >= TWO64 ==> (r <==> offset + len - TWO64 <= |Buffer()|)
    {
      r := (offset + len) % TWO64 <= m_current_chunk.m_chunk.m_ptr.Length;
    }

    method ReadInt64() returns (ok: bool, out: int, isnull: bool)
      requires Valid() && m_current_chunk.m_chunk.m_ptr.Length < TWO64 - 16
      modifies `m_error, m_current_chunk`m_offset
      ensures Valid()
      ensures ok <==> old(m_current_chunk.m_offset) + 8 <= |Buffer()|
      ensures ok ==> out == Signed64(Buffer()[old(m_current_chunk.m_offset)..old(m_current_chunk.m_offset) + 8])
      ensures ok ==> Spells64(Buffer()[old(m_current_chunk.m_offset)..old(m_current_chunk.m_offset) + 8], out)
      ensures ok ==> (isnull <==> out == -0x8000_0000_0000_0000)
      ensures m_current_chunk.m_offset == old(m_current_chunk.m_offset) + if ok then 8 else 0
    {
      ok := CanRead(m_current_chunk.m_offset, 8);
      out, isnull := 0, false;
      if !ok {
        m_error := "no space available to read Int64";
        return;
      }
      var bytes := m_current_chunk.ReadBytes(8);
      ReadSpells64(bytes);
      out := Signed64(bytes);
      isnull := out == INT64_NULL;
    }

    /** The four bytes behind the value are skipped with Pad, which also counts
        them as consumed. */
    method ReadInt32() returns (ok: bool, out: int, isnull: bool)
      requires Valid() && m_current_chunk.m_chunk.m_ptr.Length < TWO64 - 16
      modifies `m_error, m_current_chunk`m_offset, m_current_chunk.m_chunk`consumed_size
      ensures Valid()
      ensures ok <==> old(m_current_chunk.m_offset) + 8 <= |Buffer()|
      ensures ok ==> out == Signed32(Buffer()[old(m_current_chunk.m_offset)..old(m_current_chunk.m_offset) + 4])
      ensures ok ==> Spells32(Buffer()[old(m_current_chunk.m_offset)..old(m_current_chunk.m_offset) + 4], out)
      ensures ok ==> (isnull <==> out == -0x8000_0000)
      ensures m_current_chunk.m_offset == old(m_current_chunk.m_offset) + if ok then 8 else 0
      ensures m_current_chunk.m_chunk.consumed_size == old(m_current_chunk.m_chunk.consumed_size) + if ok then 4 else 0
    {
      ok := CanRead(m_current_chunk.m_offset, 8);
      out, isnull := 0, false;
      if !ok {
        m_error := "no space available to read Int32";
        return;
      }
      var bytes := m_current_chunk.ReadBytes(4);
      m_current_chunk.Pad(4);
      ReadSpells32(bytes);
      out := Signed32(bytes);
      isnull := out == INT32_NULL;
    }

    method ReadFloat() returns (ok: bool, out: seq<Byte>, isnull: bool)
      requires Valid() && m_current_chunk.m_chunk.m_ptr.Length < TWO64 - 16
      modifies `m_error, m_current_chunk`m_offset
      ensures Valid()
      ensures ok <==> old(m_current_chunk.m_offset) + 8 <= |Buffer()|
      ensures ok ==> out == Buffer()[old(m_current_chunk.m_offset)..old(m_current_chunk.m_offset) + 8]
      ensures ok ==> |out| == 8 && (isnull <==> SpellsNaN(out))
      ensures m_current_chunk.m_offset == old(m_current_chunk.m_offset) + if ok then 8 else 0
    {
      ok := CanRead(m_current_chunk.m_offset, 8);
      out, isnull := [], false;
      if !ok {
        m_error := "no space available to read Float";
        return;
      }
      out := m_current_chunk.ReadBytes(8);
      NaNBytes(out);
      isnull := IsNaN(out);
    }

    /** The value is found from the recorded distance to the end of the buffer.
        The debug assertion that this distance is not zero is left out. */
    method ReadVariable() returns (ok: bool, at: nat, len: nat, isnull: bool)
      requires Valid() && m_current_chunk.m_chunk.m_ptr.Length < TWO64 - 16
      modifies `m_error, m_current_chunk`m_offset
      ensures Valid()
      ensures var o := old(m_current_chunk.m_offset); var n := |Buffer()|;
              if o + 16 > n then !ok && m_current_chunk.m_offset == o
              else
                && m_current_chunk.m_offset == o + 16
                && len == FromLittle(Buffer()[o + 8..o + 16])
                && isnull == (len == 0)
                && at == (n - FromLittle(Buffer()[o..o + 8])) % TWO64
                && (ok <==> len == 0 || (at + len) % TWO64 <= n)
    {
      ok := CanRead(m_current_chunk.m_offset, 16);
      at, len, isnull := 0, 0, false;
      if !ok {
        m_error := "no space available to read Variable length and offset";
        return;
      }
      var bytes := m_current_chunk.ReadBytes(8);
      var offset := FromLittle(bytes);
      bytes := m_current_chunk.ReadBytes(8);
      len := FromLittle(bytes);
      FromLittleBound(bytes);
      Powers();
      at := (m_current_chunk.m_chunk.m_ptr.Length - offset) % TWO64;
      if len == 0 {
        isnull := true;
        return;
      }
      ok := CanRead(at, len);
      if !ok {
        m_error := "no space available to read Variable";
      }
    }

    method ReadFixed(len: nat) returns (ok: bool, out: seq<Byte>, isnull: bool)
      requires Valid()
      modifies `m_error, m_current_chunk`m_offset
      ensures Valid() && m_error == old(m_error)
      ensures ok <==> len == 0 || old(m_current_chunk.m_offset) + SizeofAligned8(len) <= |Buffer()|
      ensures len == 0 ==> isnull
      ensures ok && len > 0 ==>
                && out == Buffer()[old(m_current_chunk.m_offset)..old(m_current_chunk.m_offset) + len]
                && (isnull <==> TextOrNull(out).NullValue?)
      ensures m_current_chunk.m_offset ==
              old(m_current_chunk.m_offset) + if ok && len > 0 then SizeofAligned8(len) else 0
    {
      out := [];
      if len == 0 {
        return true, out, true;
      }
      var at;
      ok, at := m_current_chunk.ReadAligned8(len);
      isnull := false;
      if ok {
        out := m_current_chunk.m_chunk.m_ptr[at..at + len];
        isnull := IsNullBuffer(out);
      }
    }
  }

  // ------------------------------------------------------------------
  // Reading back what was written
  // ------------------------------------------------------------------

  /** What the reads find in a stored field, type by type. */
  ghost predicate Reads(buf: seq<Byte>, off: nat, f: Field)
    requires CellOk(f.col, f.cell) && !f.col.ctype.Unsupported? && off + FixedLen(f.col) <= |buf|
  {
    var value := Normal(f.col, f.cell);
    match f.col.ctype
    case Int64 => value == IntOrNull(Signed64(buf[off..off + 8]), INT64_NULL)
    case Time => value == IntOrNull(Signed64(buf[off..off + 8]), INT64_NULL)
    case DateTime => value == IntOrNull(Signed64(buf[off..off + 8]), INT64_NULL)
    case Int32 => value == IntOrNull(Signed32(buf[off..off + 4]), INT32_NULL)
    case Date => value == IntOrNull(Signed32(buf[off..off + 4]), INT32_NULL)
    case Double => value == if IsNaN(buf[off..off + 8]) then NullValue else DoubleValue(buf[off..off + 8])
    case Fixed => value == if f.col.size == 0 then NullValue else TextOrNull(buf[off..off + f.col.size])
    case Variable =>
      var o, len := FromLittle(buf[off..off + 8]), FromLittle(buf[off + 8..off + 16]);
      && len <= o <= |buf|
      && value == if len == 0 then NullValue else Text(buf[|buf| - o..|buf| - o + len])
  }

  /** Every stored field reads back as the normalised value that was written. */
  lemma FieldReads(buf: seq<Byte>, off: nat, v: nat, f: Field)
    requires FieldAt(buf, off, v, f) && |buf| < TWO64
    ensures Reads(buf, off, f)
  {
    hide Little, FromLittle, Signed, Little64, Little32, Signed64, Signed32, WrappedSeconds;
    var cell := f.cell;
    match f.col.ctype {
      case Int64 => SignedBack(INT64_NULL);
      case Int32 => SignedBack(INT32_NULL);
      case Double => assert IsNaN(DOUBLE_NULL);
      case Time =>
        SignedBack(INT64_NULL);
        if cell.Clock? {
          TimeRange(cell.time);
          SignedBack(ToTimeCAS(cell.time));
        }
      case Date => SignedBack(if cell.Null? then INT32_NULL else cell.num);
      case DateTime => SignedBack(if cell.Null? then INT64_NULL else cell.num);
      case Fixed => FixedReads(buf, off, f);
      case Variable =>
        SignedBack(v + LengthOf(cell));
        SignedBack(LengthOf(cell));
    }
  }

  lemma TimeRange(t: MySqlTime)
    requires Representable(t)
    ensures -TWO64 / 2 < ToTimeCAS(t) < TWO64 / 2
  {
  }

  lemma FixedReads(buf: seq<Byte>, off: nat, f: Field)
    requires f.col.ctype.Fixed? && CellOk(f.col, f.cell) && off + SizeofAligned8(f.col.size) <= |buf|
    requires buf[off..off + SizeofAligned8(f.col.size)] ==
             if f.cell.Null? then Repeat('\0', SizeofAligned8(f.col.size))
                 else PadSpaces(f.cell.bytes, SizeofAligned8(f.col.size))
    ensures Normal(f.col, f.cell) == if f.col.size == 0 then NullValue else TextOrNull(buf[off..off + f.col.size])
  {
    var size, whole := f.col.size, buf[off..off + SizeofAligned8(f.col.size)];
    assert buf[off..off + size] == whole[..size];
    if f.cell.Null? {
      assert AllBytes(whole[..size], '\0');
    } else {
      assert whole[..size] == PadSpaces(f.cell.bytes, size);
    }
  }

  /** The assertion that ReadVariable makes in a debug build, that the recorded
      distance is not zero, holds exactly when some Variable value up to and
      including this one is not empty. */
  lemma DistanceZero(buf: seq<Byte>, fields: seq<Field>, j: nat)
    requires Stored(buf, fields) && j < |fields| && fields[j].col.ctype.Variable?
    ensures var o := TotalFix(fields[..j]);
            && o + 16 <= |buf|
            && (FromLittle(buf[o..o + 8]) == 0 <==>
                forall i :: 0 <= i <= j ==> VarLen(fields[i].col, fields[i].cell) == 0)
  {
    hide FieldAt, TotalFix, TotalVar, FromLittle, VarLen;
    DistanceOf(buf, TotalFix(fields[..j]), TotalVar(fields[..j]), fields[j]);
    VarZero(fields[..j]);
    assert forall i :: 0 <= i < j ==> fields[..j][i] == fields[i];
  }

  lemma DistanceOf(buf: seq<Byte>, off: nat, v: nat, f: Field)
    requires FieldAt(buf, off, v, f) && |buf| < TWO64 && f.col.ctype.Variable?
    ensures off + 16 <= |buf| && FromLittle(buf[off..off + 8]) == v + VarLen(f.col, f.cell)
  {
    hide Little, FromLittle, Little64, Normal;
    SignedBack(v + LengthOf(f.cell));
  }

  lemma {:induction false} VarZero(fields: seq<Field>)
    ensures TotalVar(fields) == 0 <==> forall i :: 0 <= i < |fields| ==> VarLen(fields[i].col, fields[i].cell) == 0
    decreases |fields|
  {
    if fields != [] {
      VarZero(fields[..|fields| - 1]);
    }
  }

  /** A chunk whose only value is an empty one has distance zero, and makes the
      debug assertion fail. */
  lemma EmptyFirst(buf: seq<Byte>, fields: seq<Field>)
    requires buf == Repeat('\0', 16) && fields == [Field(Column(Variable, 0), Raw([]))]
    ensures Stored(buf, fields) && FromLittle(buf[0..8]) == 0
  {
    assert fields[..0] == [];
    ZeroBytes(8);
    assert buf[0..8] == Repeat('\0', 8) && buf[8..16] == Repeat('\0', 8);
    assert FieldAt(buf, 0, 0, fields[0]);
  }

  lemma {:induction false} ZeroBytes(k: nat)
    ensures Little(0, k) == Repeat('\0', k) && FromLittle(Repeat('\0', k)) == 0
  {
    if k > 0 {
      ZeroBytes(k - 1);
      assert Repeat('\0', k)[1..] == Repeat('\0', k - 1);
      assert Repeat('\0', k) == ['\0'] + Repeat('\0', k - 1);
    }
  }
}
