/** A chunk buffer with its write position as a value, the primitive writes, and
    what writing one field does to it. */
module ChunkImage {
  import opened Bytes
  import opened Clock
  import opened Records

  /** off is the write position in the fixed region, voff the size of the
      variable region at the other end, consumed the bytes used so far. */
  datatype Image = Image(buf: seq<Byte>, off: nat, voff: nat, consumed: int)

  predicate Fits(img: Image, len: nat) {
    img.off + len + img.voff <= |img.buf|
  }

  function WriteAt(img: Image, at: nat, src: seq<Byte>): Image
    requires at + |src| <= |img.buf|
  {
    if src == [] then img else img.(buf := Splice(img.buf, at, src), consumed := img.consumed + |src|)
  }

  function Write(img: Image, src: seq<Byte>): Image
    requires img.off + |src| <= |img.buf|
  {
    WriteAt(img, img.off, src).(off := img.off + |src|)
  }

  function Pad(img: Image, len: nat): Image {
    img.(off := img.off + len, consumed := img.consumed + len)
  }

  function PadWith(img: Image, len: nat, fill: Byte): Image
    requires img.off + len <= |img.buf|
  {
    img.(buf := Splice(img.buf, img.off, Repeat(fill, len)), off := img.off + len, consumed := img.consumed + len)
  }

  function PutVariable(img: Image, src: seq<Byte>): Image
    requires Fits(img, 16 + |src|)
  {
    var img1 := img.(voff := img.voff + |src|);
    var img2 := Write(Write(img1, Little64(img1.voff)), Little64(|src|));
    WriteAt(img2, |img.buf| - img1.voff, src)
  }

  function PutFixed(img: Image, src: seq<Byte>, size: nat): Image
    requires |src| <= size && Fits(img, SizeofAligned8(size))
  {
    PadWith(Write(img, src), SizeofAligned8(size) - |src|, ' ')
  }

  /** The switch in WriteRow, one column. */
  function PutField(img: Image, f: Field): Image
    requires Fits(img, FixedLen(f.col) + VarLen(f.col, f.cell))
    requires CellOk(f.col, f.cell) && !f.col.ctype.Unsupported?
  {
    match f.col.ctype
    case Int64 => Write(img, if f.cell.Null? then Little64(INT64_NULL) else f.cell.bytes)
    case Int32 => Pad(Write(img, if f.cell.Null? then Little32(INT32_NULL) else f.cell.bytes), 4)
    case Double => Write(img, if f.cell.Null? then DOUBLE_NULL else f.cell.bytes)
    case Time => Write(img, Little64(if f.cell.Null? then INT64_NULL else ToTimeCAS(f.cell.time)))
    case Date => Pad(Write(img, Little32(if f.cell.Null? then INT32_NULL else f.cell.num)), 4)
    case DateTime => Write(img, Little64(if f.cell.Null? then INT64_NULL else f.cell.num))
    case Fixed =>
      if f.cell.Null? then PadWith(img, SizeofAligned8(f.col.size), '\0')
      else PutFixed(img, f.cell.bytes, f.col.size)
    case Variable => PutVariable(img, if f.cell.Null? then [] else f.cell.bytes)
  }

  /** Nothing outside the gap between the two regions of img has changed. */
  predicate OnlyGap(img: Image, img': Image) {
    && |img'.buf| == |img.buf|
    && forall i :: 0 <= i < |img.buf| && (i < img.off || i >= |img.buf| - img.voff) ==> img'.buf[i] == img.buf[i]
  }

  /** Writing a field stores it, moves the two positions by exactly its size,
      and changes nothing outside the gap. */
  lemma PutFieldStores(img: Image, f: Field)
    requires Fits(img, FixedLen(f.col) + VarLen(f.col, f.cell)) && |img.buf| < TWO64
    requires CellOk(f.col, f.cell) && !f.col.ctype.Unsupported?
    ensures var r := PutField(img, f);
            && FieldAt(r.buf, img.off, img.voff, f)
            && r.off == img.off + FixedLen(f.col) && r.voff == img.voff + VarLen(f.col, f.cell)
            && r.consumed == img.consumed + FixedLen(f.col) + VarLen(f.col, f.cell)
            && OnlyGap(img, r)
  {
    hide Little, FromLittle, Splice, Write, PadWith, PutFixed, PutVariable, OnlyGap, ToTimeCAS, Little64, Little32,
        PadSpaces, Repeat, SizeofAligned8;
    match f.col.ctype {
      case Variable => PutVariableStores(img, if f.cell.Null? then [] else f.cell.bytes);
      case Fixed =>
        if f.cell.Null? {
          PadWithStores(img, SizeofAligned8(f.col.size), '\0');
        } else {
          PutFixedStores(img, f.cell.bytes, f.col.size);
        }
      case _ => PutNumberStores(img, f);
    }
  }

  lemma PutNumberStores(img: Image, f: Field)
    requires Fits(img, FixedLen(f.col) + VarLen(f.col, f.cell))
    requires CellOk(f.col, f.cell) && !f.col.ctype.Unsupported? && !f.col.ctype.Variable? && !f.col.ctype.Fixed?
    ensures var r := PutField(img, f);
            && FieldAt(r.buf, img.off, img.voff, f)
            && r.off == img.off + FixedLen(f.col) && r.voff == img.voff + VarLen(f.col, f.cell)
            && r.consumed == img.consumed + FixedLen(f.col) + VarLen(f.col, f.cell)
            && OnlyGap(img, r)
  {
    hide Little, Splice, Write, OnlyGap, ToTimeCAS, Little64, Little32;
    var cell := f.cell;
    match f.col.ctype {
      case Int64 => WriteStores(img, if cell.Null? then Little64(INT64_NULL) else cell.bytes);
      case Int32 => WriteStores(img, if cell.Null? then Little32(INT32_NULL) else cell.bytes);
      case Double => WriteStores(img, if cell.Null? then DOUBLE_NULL else cell.bytes);
      case Time => WriteStores(img, Little64(if cell.Null? then INT64_NULL else ToTimeCAS(cell.time)));
      case Date => WriteStores(img, Little32(if cell.Null? then INT32_NULL else cell.num));
      case DateTime => WriteStores(img, Little64(if cell.Null? then INT64_NULL else cell.num));
    }
  }

  lemma WriteStores(img: Image, src: seq<Byte>)
    requires Fits(img, |src|)
    ensures var r := Write(img, src);
            && |r.buf| == |img.buf| && r.buf[img.off..img.off + |src|] == src
            && OnlyGap(img, r) && OnlyGap(img, Pad(r, 4))
            && r.off == img.off + |src| && r.voff == img.voff && r.consumed == img.consumed + |src|
  {
    SpliceHere(img.buf, img.off, src);
  }

  lemma PadWithStores(img: Image, len: nat, fill: Byte)
    requires Fits(img, len)
    ensures var r := PadWith(img, len, fill);
            && |r.buf| == |img.buf| && r.buf[img.off..img.off + len] == Repeat(fill, len) && OnlyGap(img, r)
            && r.off == img.off + len && r.voff == img.voff && r.consumed == img.consumed + len
  {
    SpliceHere(img.buf, img.off, Repeat(fill, len));
  }

  lemma PutFixedStores(img: Image, src: seq<Byte>, size: nat)
    requires |src| <= size && Fits(img, SizeofAligned8(size))
    ensures var r := PutFixed(img, src, size); var len := SizeofAligned8(size);
            && |r.buf| == |img.buf| && r.buf[img.off..img.off + len] == PadSpaces(src, len) && OnlyGap(img, r)
            && r.off == img.off + len && r.voff == img.voff && r.consumed == img.consumed + len
  {
    hide Splice, PutVariable;
    var len := SizeofAligned8(size);
    var img1 := Write(img, src);
    WriteStores(img, src);
    PadWithStores(img1, len - |src|, ' ');
    var r := PutFixed(img, src, size);
    assert r.buf[img.off..img.off + |src|] == img1.buf[img.off..img.off + |src|];
    assert r.buf[img.off..img.off + len] == r.buf[img.off..img.off + |src|] + r.buf[img.off + |src|..img.off + len];
  }

  lemma PutVariableStores(img: Image, src: seq<Byte>)
    requires Fits(img, 16 + |src|)
    ensures var r := PutVariable(img, src); var v := img.voff + |src|; var n := |img.buf|;
            && |r.buf| == n
            && r.buf[img.off..img.off + 8] == Little64(v)
            && r.buf[img.off + 8..img.off + 16] == Little64(|src|)
            && r.buf[n - v..n - img.voff] == src
            && r.off == img.off + 16 && r.voff == v && r.consumed == img.consumed + 16 + |src|
            && OnlyGap(img, r)
  {
    hide Little, FromLittle;
    var v, n := img.voff + |src|, |img.buf|;
    var img1 := img.(voff := v);
    var img2 := Write(img1, Little64(v));
    var img3 := Write(img2, Little64(|src|));
    assert img2.buf[img.off..img.off + 8] == Little64(v);
    SpliceElsewhere(img2.buf, img.off + 8, Little64(|src|), img.off, img.off + 8);
    assert img3.buf[img.off + 8..img.off + 16] == Little64(|src|);
    SpliceElsewhere(img3.buf, n - v, src, img.off, img.off + 8);
    SpliceElsewhere(img3.buf, n - v, src, img.off + 8, img.off + 16);
    SpliceHere(img3.buf, n - v, src);
  }

  /** Stored fields stay stored when only the gap changes. */
  lemma FieldStays(img: Image, img': Image, off: nat, v: nat, f: Field)
    requires OnlyGap(img, img') && FieldAt(img.buf, off, v, f)
    requires off + FixedLen(f.col) <= img.off && v + VarLen(f.col, f.cell) <= img.voff <= |img.buf|
    ensures FieldAt(img'.buf, off, v, f)
  {
    hide Little, FromLittle, Normal;
    var n := |img.buf|;
    SliceStays(img, img', off, off + FixedLen(f.col));
    var fixed, fixed' := img.buf[off..off + FixedLen(f.col)], img'.buf[off..off + FixedLen(f.col)];
    assert fixed == fixed';
    match f.col.ctype {
      case Variable =>
        var len := LengthOf(f.cell);
        assert img.buf[off..off + 8] == fixed[..8] && img'.buf[off..off + 8] == fixed'[..8];
        assert img.buf[off + 8..off + 16] == fixed[8..] && img'.buf[off + 8..off + 16] == fixed'[8..];
        assert img.buf[n - v - len..n - v] == img'.buf[n - v - len..n - v];
      case Int32 =>
        assert img.buf[off..off + 4] == fixed[..4] && img'.buf[off..off + 4] == fixed'[..4];
      case Date =>
        assert img.buf[off..off + 4] == fixed[..4] && img'.buf[off..off + 4] == fixed'[..4];
      case _ =>
    }
  }

  lemma SliceStays(img: Image, img': Image, lo: nat, hi: nat)
    requires OnlyGap(img, img') && lo <= hi <= img.off && hi <= |img.buf|
    ensures img.buf[lo..hi] == img'.buf[lo..hi]
  {
  }

  /** The image holds exactly these fields: they are stored, and the positions
      and the byte count are where they lead. */
  ghost predicate Holds(img: Image, fields: seq<Field>) {
    && Stored(img.buf, fields)
    && img.off == TotalFix(fields) && img.voff == TotalVar(fields)
    && img.consumed == img.off + img.voff
  }

  lemma HoldsPositions(img: Image, fields: seq<Field>)
    requires Holds(img, fields)
    ensures img.off == TotalFix(fields) && img.voff == TotalVar(fields) && img.consumed == img.off + img.voff
    ensures img.off + img.voff <= |img.buf|
  {
  }

  lemma {:induction false} PrefixBounds(fields: seq<Field>, j: nat)
    requires j < |fields|
    ensures TotalFix(fields[..j]) + FixedLen(fields[j].col) <= TotalFix(fields)
    ensures TotalVar(fields[..j]) + VarLen(fields[j].col, fields[j].cell) <= TotalVar(fields)
    decreases |fields|
  {
    var n := |fields| - 1;
    if j < n {
      PrefixBounds(fields[..n], j);
      assert fields[..n][..j] == fields[..j];
    }
  }

  /** Writing one more field keeps all earlier ones, in both regions. */
  lemma PutFieldHolds(img: Image, fields: seq<Field>, f: Field)
    requires Holds(img, fields)
    requires Fits(img, FixedLen(f.col) + VarLen(f.col, f.cell))
    requires CellOk(f.col, f.cell) && !f.col.ctype.Unsupported?
    ensures Holds(PutField(img, f), fields + [f])
  {
    hide PutField, FieldAt;
    PutFieldStores(img, f);
    var img' := PutField(img, f);
    var fields' := fields + [f];
    assert fields'[..|fields|] == fields;
    Totals(fields, [f]);
    assert [f][..0] == [];
    assert TotalFix([f]) == FixedLen(f.col) && TotalVar([f]) == VarLen(f.col, f.cell);
    forall j | 0 <= j < |fields'|
      ensures FieldAt(img'.buf, TotalFix(fields'[..j]), TotalVar(fields'[..j]), fields'[j])
    {
      if j < |fields| {
        assert fields'[..j] == fields[..j];
        PrefixBounds(fields, j);
        FieldStays(img, img', TotalFix(fields[..j]), TotalVar(fields[..j]), fields[j]);
      }
    }
  }
}
