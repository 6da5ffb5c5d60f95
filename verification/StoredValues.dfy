/** What a value in a chunk is, byte by byte, and which values count as null: the
    numbers, bit patterns and fill bytes that chunks are exchanged with. */
module StoredValues {
  import opened Bytes
  import opened Records

  /** The field holds v in four bytes: an Int32 as the client sends it, or a Date. */
  ghost predicate Holds32(f: Field, v: int) {
    match f.col.ctype
    case Int32 => f.cell.Raw? && Spells32(f.cell.bytes, v)
    case Date => f.cell == Moment(v)
    case _ => false
  }

  /** The field holds v in eight bytes: an Int64, a DateTime, or the microseconds
      of a Time, whose seconds are counted modulo 2 to the 32nd. */
  ghost predicate Holds64(f: Field, v: int) {
    match f.col.ctype
    case Int64 => f.cell.Raw? && Spells64(f.cell.bytes, v)
    case DateTime => f.cell == Moment(v)
    case Time =>
      && f.cell.Clock?
      && var t := f.cell.time;
      var micros := t.micro + 1_000_000 * ((3600 * t.hour + 60 * t.minute + t.second) % 0x1_0000_0000);
      v == if t.neg then -micros else micros
    case _ => false
  }

  /** A stored 32-bit number lies in its place in two's complement, and reads
      back as itself exactly when it is not the smallest, which reads as null. */
  lemma Int32ReadsBack(buf: seq<Byte>, off: nat, w: nat, f: Field, v: int)
    requires FieldAt(buf, off, w, f) && Holds32(f, v)
    ensures off + 8 <= |buf| && -0x8000_0000 <= v < 0x8000_0000 && Spells32(buf[off..off + 4], v)
    ensures Normal(f.col, f.cell) == if v == -0x8000_0000 then NullValue else IntValue(v)
  {
    hide Little, FromLittle, Signed, Little32;
    if f.cell.Raw? {
      ReadSpells32(f.cell.bytes);
    }
    WrittenSpells(v);
  }

  /** The same for the 64-bit numbers. */
  lemma Int64ReadsBack(buf: seq<Byte>, off: nat, w: nat, f: Field, v: int)
    requires FieldAt(buf, off, w, f) && Holds64(f, v)
    ensures off + 8 <= |buf| && -0x8000_0000_0000_0000 <= v < 0x8000_0000_0000_0000
    ensures Spells64(buf[off..off + 8], v)
    ensures Normal(f.col, f.cell) == if v == -0x8000_0000_0000_0000 then NullValue else IntValue(v)
  {
    hide Little, FromLittle, Signed, Little64;
    if f.cell.Raw? {
      ReadSpells64(f.cell.bytes);
    }
    WrittenSpells(v);
  }

  /** The eight bytes of a double are stored as they are, and read back as they
      are exactly when they are a number or an infinity. */
  lemma DoubleReadsBack(buf: seq<Byte>, off: nat, w: nat, f: Field)
    requires FieldAt(buf, off, w, f) && f.col.ctype.Double? && !f.cell.Null?
    ensures f.cell.Raw? && off + 8 <= |buf| && buf[off..off + 8] == f.cell.bytes
    ensures Normal(f.col, f.cell) == if SpellsNaN(f.cell.bytes) then NullValue else DoubleValue(f.cell.bytes)
  {
    NaNBytes(f.cell.bytes);
  }

  predicate AllAre(b: seq<Byte>, code: int) {
    forall i :: 0 <= i < |b| ==> b[i] as int == code
  }

  /** A fixed-size value is filled up with bytes 32, and reads back with its
      fill: as null exactly when all its bytes are 32, or all are 0 and none was
      filled up. */
  lemma FixedReadsBack(buf: seq<Byte>, off: nat, w: nat, f: Field)
    requires FieldAt(buf, off, w, f) && f.col.ctype.Fixed? && !f.cell.Null?
    ensures f.cell.Raw? && |f.cell.bytes| <= f.col.size && off + f.col.size <= |buf|
    ensures var b, filled := f.cell.bytes, buf[off..off + f.col.size];
            && filled[..|b|] == b && AllAre(filled[|b|..], 32)
            && Normal(f.col, f.cell) ==
               if AllAre(b, 32) || (|b| == f.col.size && AllAre(b, 0)) then NullValue else Text(filled)
  {
    hide AllAre, TextOrNull;
    var b, size := f.cell.bytes, f.col.size;
    FixedBytes(buf, off, w, f);
    Filled(b, size);
    FilledIsNull(b, size);
  }

  lemma FixedBytes(buf: seq<Byte>, off: nat, w: nat, f: Field)
    requires FieldAt(buf, off, w, f) && f.col.ctype.Fixed? && !f.cell.Null?
    ensures f.cell.Raw? && |f.cell.bytes| <= f.col.size && off + f.col.size <= |buf|
    ensures buf[off..off + f.col.size] == PadSpaces(f.cell.bytes, f.col.size)
  {
    hide Normal;
    var b, size := f.cell.bytes, f.col.size;
    var whole := buf[off..off + SizeofAligned8(size)];
    assert buf[off..off + size] == whole[..size];
    assert PadSpaces(b, SizeofAligned8(size))[..size] == PadSpaces(b, size);
  }

  lemma Filled(b: seq<Byte>, size: nat)
    requires |b| <= size
    ensures PadSpaces(b, size)[..|b|] == b && AllAre(PadSpaces(b, size)[|b|..], 32)
  {
    assert PadSpaces(b, size)[|b|..] == Repeat(' ', size - |b|);
  }

  lemma FilledIsNull(b: seq<Byte>, size: nat)
    requires |b| <= size
    ensures var r := PadSpaces(b, size);
            TextOrNull(r) == if AllAre(b, 32) || (|b| == size && AllAre(b, 0)) then NullValue else Text(r)
  {
    var r := PadSpaces(b, size);
    forall i | 0 <= i < size ensures r[i] == if i < |b| then b[i] else ' ' {
    }
    assert AllBytes(r, ' ') <==> AllAre(b, 32) by {
      assert forall i :: 0 <= i < |b| ==> r[i] == b[i];
    }
    assert AllBytes(r, '\0') <==> |b| == size && AllAre(b, 0) by {
      if |b| < size {
        assert r[|b|] == ' ';
      }
      assert forall i :: 0 <= i < |b| ==> r[i] == b[i];
    }
  }

  /** A variable value lies before w bytes at the end of the buffer, its length
      and its distance to the end in its fixed part; an empty one reads as null. */
  lemma VariableReadsBack(buf: seq<Byte>, off: nat, w: nat, f: Field)
    requires FieldAt(buf, off, w, f) && |buf| < 0x8000_0000_0000_0000 && f.col.ctype.Variable? && !f.cell.Null?
    ensures f.cell.Raw? && off + 16 + w + |f.cell.bytes| <= |buf|
    ensures var b, n := f.cell.bytes, |buf|;
            && Spells64(buf[off..off + 8], w + |b|) && Spells64(buf[off + 8..off + 16], |b|)
            && buf[n - w - |b|..n - w] == b
            && Normal(f.col, f.cell) == if |b| == 0 then NullValue else Text(b)
  {
    hide Little, FromLittle, Signed, Little64;
    WrittenSpells(w + |f.cell.bytes|);
    WrittenSpells(|f.cell.bytes|);
  }

  /** A null reads back as null, and is stored as the smallest number, as one
      particular not-a-number, as bytes 0, or as a value of length 0. */
  lemma NullReadsBack(buf: seq<Byte>, off: nat, w: nat, f: Field)
    requires FieldAt(buf, off, w, f) && f.cell.Null?
    ensures Normal(f.col, f.cell) == NullValue
    ensures match f.col.ctype
            case Int32 => Spells32(buf[off..off + 4], -0x8000_0000)
            case Date => Spells32(buf[off..off + 4], -0x8000_0000)
            case Double =>
              var b := buf[off..off + 8];
              && b[0] as int == b[1] as int == b[2] as int == b[3] as int == b[4] as int == 0
              && b[5] as int == 0xfe && b[6] as int == b[7] as int == 0xff
            case Fixed => |buf| >= off + f.col.size && AllAre(buf[off..off + f.col.size], 0)
            case Variable => Spells64(buf[off + 8..off + 16], 0)
            case _ => Spells64(buf[off..off + 8], -0x8000_0000_0000_0000)
  {
    hide Little, FromLittle, Signed, Little64, Little32;
    WrittenSpells(0);
    WrittenSpells(-0x8000_0000);
    WrittenSpells(-0x8000_0000_0000_0000);
    match f.col.ctype {
      case Fixed =>
        var len := SizeofAligned8(f.col.size);
        assert buf[off..off + f.col.size] == buf[off..off + len][..f.col.size] == Repeat('\0', f.col.size);
      case _ =>
    }
  }
}
