/** The scan over an execution plan's text: the loop that splits it into columns
    and the loop that reads each column. */
module ExplainScan {
  import opened Prelude
  import opened Records
  import opened Decimal
  import opened TextSearch
  import opened Identifiers
  import opened Explain
  import opened ColumnTypes

  /** The next backtick: the closing one, or the first of a pair. */
  lemma {:induction false} NextTick(s: string, from: nat, name: string, rest: string) returns (left: string)
    requires from <= |s| && s[from..] == Doubled(name) + "`" + rest && rest != "" && rest[0] != '`'
    ensures var q := FindChar(s, '`', from);
            && q.Some? && q.value + 1 < |s|
            && if s[q.value + 1] == '`' then
                 && q.value + 2 <= |s| && |left| < |name| && s[q.value + 2..] == Doubled(left) + "`" + rest
                 && q.value + 2 + |Doubled(left)| == from + |Doubled(name)|
               else q.value == from + |Doubled(name)|
    decreases |name|
  {
    left := "";
    if name == "" {
      assert s[from..] == "`" + rest;
      Peel(s, from, "`", rest);
    } else {
      var tail := Doubled(name[1..]) + "`" + rest;
      if name[0] == '`' {
        Peel(s, from, "``", tail);
        left := name[1..];
        assert s[from + 1] == s[from..from + 2][1];
      } else {
        Peel(s, from, [name[0]], tail);
        left := NextTick(s, from + 1, name[1..], rest);
      }
    }
  }

  /** The inner loop: it steps over doubled backticks. */
  method NameLastBacktick(s: string, nameStart: nat, ghost name: string, ghost rest: string) returns (q: nat)
    requires nameStart <= |s| && s[nameStart..] == Doubled(name) + "`" + rest && rest != "" && rest[0] != '`'
    ensures q == nameStart + |Doubled(name)|
  {
    hide Doubled, FindChar;
    ghost var from: nat, left: string := nameStart, name;
    ghost var next := NextTick(s, from, left, rest);
    q := FindChar(s, '`', nameStart).value;
    while s[q + 1] == '`'
      invariant from <= |s| && s[from..] == Doubled(left) + "`" + rest
      invariant from + |Doubled(left)| == nameStart + |Doubled(name)|
      invariant FindChar(s, '`', from) == Some(q) && q + 1 < |s|
      decreases |s| - q
    {
      next := NextTick(s, from, left, rest);
      from, left := q + 2, next;
      next := NextTick(s, from, left, rest);
      q := FindChar(s, '`', q + 2).value;
    }
    next := NextTick(s, from, left, rest);
  }

  /** What one round of the scan finds. */
  lemma FieldFound(p: Plan, i: nat, from: nat)
    requires PlanOk(p) && i < |p.defs| && |ListText(p)| >= 4
    requires from == FieldStart(p, i) - (if i == 0 then 1 else 2)
    ensures var s, b, d := PlanText(p), FieldStart(p, i), p.defs[i];
            var nameEnd := b + |Doubled(d.name)|;
            var typeEnd := nameEnd + 3 + |TypeString(d.ctype)|;
            var comma := FindChar(s, ',', typeEnd);
            var fieldEnd := if comma.Some? then comma.value else ListEnd(p) - 4;
            && FindChar(s, '`', from) == Some(b)
            && b < |s|
            && s[b + 1..] ==
               Doubled(d.name) + "`" + (" " + (TypeString(d.ctype) + (" " + (d.charset + Behind(p, i)))))
            && FindChar(s, ' ', nameEnd + 3) == Some(typeEnd)
            && SplitRight(p, i, FieldDefSplit(b + 1, nameEnd, nameEnd + 3, typeEnd, fieldEnd))
            && (if i + 1 < |p.defs| then fieldEnd == FieldStart(p, i + 1) - 2 else fieldEnd >= ListEnd(p) - 4)
  {
    hide PlanText, ListText, Doubled, TypeString, FieldText, Behind, FindChar, ListEnd, DefOk, At, Occurs;
    NameFound(p, i, from);
    Pieces(p, i);
    TypeFound(p, i);
    CommaFound(p, i);
  }

  /** The scan ends with one entry for each column, each where the column lies. */
  method SplitFields(s: string, ghost p: Plan) returns (fieldDefs: seq<FieldDefSplit>)
    requires s == PlanText(p) && PlanOk(p)
    ensures |ListText(p)| >= 4 && |fieldDefs| == |p.defs|
    ensures forall i :: 0 <= i < |fieldDefs| ==> SplitRight(p, i, fieldDefs[i])
  {
    hide PlanText, ListText, Doubled, TypeString, FieldText, FieldStart, Behind, FindChar, FindText, ListEnd,
        SplitRight, DefOk, At, Occurs;
    ListFound(p);
    ListIsLong(p);
    var showColumns := FindText(s, HEADER, 0).value;
    var startIdx := FindChar(s, '[', showColumns).value;
    var endIdx := FindText(s, TERMINATOR, showColumns).value;
    var fieldEnd := startIdx;
    fieldDefs := [];
    while fieldEnd < endIdx
      invariant |fieldDefs| <= |p.defs|
      invariant forall i :: 0 <= i < |fieldDefs| ==> SplitRight(p, i, fieldDefs[i])
      invariant |fieldDefs| < |p.defs| ==> fieldEnd == FieldStart(p, |fieldDefs|) - (if |fieldDefs| == 0 then 1 else 2)
      invariant |fieldDefs| == |p.defs| ==> fieldEnd >= endIdx
      decreases |p.defs| - |fieldDefs|
    {
      ghost var i := |fieldDefs|;
      ghost var d := p.defs[i];
      FieldFound(p, i, fieldEnd);
      var nameStart := FindChar(s, '`', fieldEnd).value + 1;
      var lastBacktick := NameLastBacktick(s, nameStart, d.name,
          " " + (TypeString(d.ctype) + (" " + (d.charset + Behind(p, i)))));
      var nameEnd := lastBacktick - 1;
      var typeStart := nameEnd + 3;
      var typeEnd := FindChar(s, ' ', typeStart).value;
      var comma := FindChar(s, ',', typeEnd);
      fieldEnd := if comma.Some? then comma.value else endIdx;
      fieldDefs := fieldDefs + [FieldDefSplit(nameStart, nameEnd, typeStart, typeEnd, fieldEnd)];
    }
  }

  // ------------------------------------------------------------------
  // Looking for the wide character set
  // ------------------------------------------------------------------

  lemma TooShort(s: string)
    requires |s| < 7
    ensures !Occurs(WIDE, s)
  {
  }

  /** The space in front of the character set and the N of its final NULL are
      in no occurrence. */
  lemma WideWithin(c: string, y: string)
    ensures Occurs(WIDE, Lower(" " + c + "N" + y)) <==> Occurs(WIDE, Lower(c)) || Occurs(WIDE, Lower(y))
  {
    hide Occurs;
    assert Lower(" " + c + "N" + y) == (" " + Lower(c)) + ['n'] + Lower(y);
    OccursAcross(WIDE, " " + Lower(c), 'n', Lower(y));
    assert " " + Lower(c) == "" + [' '] + Lower(c);
    OccursAcross(WIDE, "", ' ', Lower(c));
    TooShort("");
  }

  lemma WideBehindNull(x: string)
    ensures Occurs(WIDE, Lower("ULL" + x)) <==> Occurs(WIDE, Lower(x))
  {
    hide Occurs;
    assert Lower("ULL" + x) == "u" + ['l'] + ("l" + Lower(x));
    OccursAcross(WIDE, "u", 'l', "l" + Lower(x));
    assert "l" + Lower(x) == "" + ['l'] + Lower(x);
    OccursAcross(WIDE, "", 'l', Lower(x));
    TooShort("");
    TooShort("u");
  }

  lemma WideBeforeComma(x: string)
    ensures Occurs(WIDE, Lower("] " + x + ",")) <==> Occurs(WIDE, Lower(x))
  {
    hide Occurs;
    assert Lower("] " + x + ",") == "]" + [' '] + (Lower(x) + ",");
    OccursAcross(WIDE, "]", ' ', Lower(x) + ",");
    assert Lower(x) + "," == Lower(x) + [','] + "";
    OccursAcross(WIDE, Lower(x), ',', "");
    TooShort("");
    TooShort("]");
  }

  lemma {:induction false} CommaBehind(s: string)
    ensures ',' in s ==> |BeforeComma(s)| < |s| && s[..|BeforeComma(s)| + 1] == BeforeComma(s) + ","
    ensures ',' !in BeforeComma(s)
  {
    if s != "" && s[0] != ',' {
      CommaBehind(s[1..]);
      assert s == [s[0]] + s[1..];
      if ',' in s {
        assert ',' in s[1..];
      }
    }
  }

  /** What the searched text holds behind the N of the final NULL. */
  function TailOf(p: Plan, i: nat): string
    requires i < |p.defs|
  {
    if i + 1 < |p.defs| then "ULL" + ","
    else if ',' in p.post then "ULL" + ("] " + BeforeComma(p.post) + ",")
    else ""
  }

  lemma WideInTail(p: Plan, i: nat)
    requires i < |p.defs|
    ensures Occurs(WIDE, Lower(TailOf(p, i))) <==> i + 1 == |p.defs| && WideBehind(p)
  {
    hide Occurs;
    WideBehindNull(",");
    WideBehindNull("] " + BeforeComma(p.post) + ",");
    WideBeforeComma(BeforeComma(p.post));
    TooShort(Lower(","));
    TooShort(Lower(""));
  }

  /** Where the last column ends. */
  lemma LastEnd(p: Plan, s: string, z: nat)
    requires z <= |s| && s[z..] == "] " + p.post
    ensures FindChar(s, ',', z) == if ',' in p.post then Some(z + 2 + |BeforeComma(p.post)|) else None
  {
    hide FindChar, BeforeComma;
    CommaBehind(p.post);
    if ',' in p.post {
      var a := "] " + BeforeComma(p.post);
      var n := |BeforeComma(p.post)| + 1;
      assert p.post == p.post[..n] + p.post[n..];
      assert s[z..] == a + [','] + p.post[n..];
      FindBehind(s, z, a, ',', p.post[n..]);
    } else {
      FindCharNone(s, ',', z);
    }
  }

  lemma TailLength(p: Plan, i: nat)
    requires PlanOk(p) && i < |p.defs| && |ListText(p)| >= 4
    ensures var d := p.defs[i];
            FieldEnd(p, i) + 1 == FieldStart(p, i) + |FieldText(d)| - 3 + |TailOf(p, i)|
  {
    hide PlanText, ListText, FieldText, FindChar, ListEnd, FieldStart, BeforeComma, Occurs, Lower;
    Remains(p, i);
    if i + 1 == |p.defs| {
      FieldsFrom(p, i);
      AfterList(p);
      LastEnd(p, PlanText(p), ListEnd(p));
    }
  }

  lemma AfterList(p: Plan)
    ensures ListEnd(p) <= |PlanText(p)| && PlanText(p)[ListEnd(p)..] == "] " + p.post
  {
    hide ListText;
    var front := p.pre + HEADER;
    Assoc(front, ListText(p), "] " + p.post);
    assert PlanText(p) == (front + ListText(p)) + ("] " + p.post);
  }

  /** The text from the end of the type to the end of the field, both included. */
  lemma CharsetPart(p: Plan, i: nat)
    requires PlanOk(p) && i < |p.defs| && |ListText(p)| >= 4
    ensures var s, d := PlanText(p), p.defs[i];
            var te := FieldStart(p, i) + |Doubled(d.name)| + 3 + |TypeString(d.ctype)|;
            && te <= FieldEnd(p, i) < |s| && |d.charset| >= 4
            && s[te..FieldEnd(p, i) + 1] == " " + d.charset[..|d.charset| - 4] + "N" + TailOf(p, i)
  {
    hide PlanText, ListText, Doubled, TypeString, FieldText, ListEnd, FieldStart, FieldEnd, TailOf, Behind, Occurs,
        Lower, At, TypeOk;
    var s, d := PlanText(p), p.defs[i];
    var te := FieldStart(p, i) + |Doubled(d.name)| + 3 + |TypeString(d.ctype)|;
    Pieces(p, i);
    assert DefOk(d);
    BehindBegins(p, i);
    TailLength(p, i);
    PartOf(s, te, d.charset, Behind(p, i), TailOf(p, i));
  }

  lemma BehindBegins(p: Plan, i: nat)
    requires i < |p.defs|
    ensures TailOf(p, i) == "" || TailOf(p, i) <= "ULL" + Behind(p, i)
  {
    hide ListFrom;
    ListFront(p, i);
    if i + 1 == |p.defs| && ',' in p.post {
      CommaBehind(p.post);
      assert BeforeComma(p.post) + "," <= p.post;
    }
  }

  lemma PartOf(s: string, te: nat, charset: string, behind: string, y: string)
    requires te <= |s| && s[te..] == " " + (charset + behind)
    requires |charset| >= 4 && charset[|charset| - 4..] == "NULL"
    requires y == "" || y <= "ULL" + behind
    ensures te + |charset| - 2 + |y| <= |s|
    ensures s[te..te + |charset| - 2 + |y|] == " " + charset[..|charset| - 4] + "N" + y
  {
    var c := charset[..|charset| - 4];
    assert charset == c + "NULL";
    var all := (" " + c + "N") + ("ULL" + behind);
    assert s[te..] == all;
    Peel(s, te, " " + c + "N", "ULL" + behind);
    assert s[te..te + |c| + 2 + |y|] == all[..|c| + 2 + |y|];
    assert all[..|c| + 2 + |y|] == " " + c + "N" + y;
  }

  lemma CharsetFound(p: Plan, i: nat)
    requires PlanOk(p) && i < |p.defs| && |ListText(p)| >= 4
    ensures var te := FieldStart(p, i) + |Doubled(p.defs[i].name)| + 3 + |TypeString(p.defs[i].ctype)|;
            && te <= FieldEnd(p, i) < |PlanText(p)|
            && (Occurs(WIDE, Lower(PlanText(p)[te..FieldEnd(p, i) + 1])) <==>
                Occurs(WIDE, Lower(p.defs[i].charset)) || (i + 1 == |p.defs| && WideBehind(p)))
  {
    hide PlanText, ListText, Doubled, TypeString, FieldText, FindChar, ListEnd, Lower, Occurs, FieldStart, FieldEnd,
        TailOf, BeforeComma, WideBehind;
    var d := p.defs[i];
    assert DefOk(d);
    var c := d.charset[..|d.charset| - 4];
    CharsetPart(p, i);
    WideInTail(p, i);
    WideWithin(c, TailOf(p, i));
    CharsetNull(c, d.charset);
  }

  lemma CharsetNull(c: string, charset: string)
    requires charset == c + "NULL"
    ensures Occurs(WIDE, Lower(charset)) <==> Occurs(WIDE, Lower(c))
  {
    hide Occurs;
    assert Lower(charset) == Lower(c) + ['n'] + Lower("ULL");
    OccursAcross(WIDE, Lower(c), 'n', Lower("ULL"));
    TooShort(Lower("ULL"));
  }

  // ------------------------------------------------------------------
  // The columns
  // ------------------------------------------------------------------

  lemma PrefixBeforeSpace(w: string, t: string)
    requires ' ' !in w
    ensures w <= t + " " <==> w <= t
  {
    assert (t + " ")[|t|] == ' ' && (t + " ")[..|t|] == t;
  }

  /** The space that the type's text still carries makes no difference. */
  lemma TypeBeforeSpace(t: string)
    ensures TypeOf(t + " ") == TypeOf(t)
    ensures "binary" <= t + " " <==> "binary" <= t
    ensures "char" <= t + " " <==> "char" <= t
  {
    PrefixBeforeSpace("bigint", t);
    PrefixBeforeSpace("int", t);
    PrefixBeforeSpace("double", t);
    PrefixBeforeSpace("datetime", t);
    PrefixBeforeSpace("date", t);
    PrefixBeforeSpace("time", t);
    PrefixBeforeSpace("binary", t);
    PrefixBeforeSpace("char", t);
    TextBeforeSpace(t);
  }

  lemma TextBeforeSpace(t: string)
    ensures IsText(t + " ") <==> IsText(t)
  {
    PrefixBeforeSpace("varchar", t);
    PrefixBeforeSpace("varbinary", t);
    PrefixBeforeSpace("longtext", t);
    PrefixBeforeSpace("longblob", t);
    PrefixBeforeSpace("mediumblob", t);
    PrefixBeforeSpace("blob", t);
    PrefixBeforeSpace("tinyblob", t);
    PrefixBeforeSpace("mediumtext", t);
    PrefixBeforeSpace("text", t);
    PrefixBeforeSpace("tinytext", t);
  }

  /** A sized type is known by its word, and its size stands in the brackets. */
  lemma SizedText(word: string, n: nat)
    requires Lower(word) == "binary" || Lower(word) == "char"
    ensures var t := TypeString(Sized(word, n));
            && |t| >= |word| + 3 && ParseNat(t[|word| + 1..|t| - 1]) == Some(n)
            && (if Lower(word) == "binary" then "binary" <= Lower(t) else "char" <= Lower(t))
            && |word| == (if Lower(word) == "binary" then 6 else 4)
  {
    hide Dec, ParseNat;
    DecBack(n);
    var t := TypeString(Sized(word, n));
    assert t[|word| + 1..|t| - 1] == Dec(n);
    LowerConcat(word, "(" + Dec(n) + ")");
    assert t == word + ("(" + Dec(n) + ")");
  }

  /** The column that a definition stands for, by the lower-case text of its type. */
  lemma InfoByType(d: ColumnDef, wide: bool)
    requires DefOk(d)
    ensures var colType := Lower(TypeString(d.ctype) + " ");
            var k := TypeOf(colType);
            && Info(d, wide).name == Doubled(d.name) && Info(d, wide).ctype == k
            && (k != Fixed ==> Info(d, wide).size == ScalarSize(k))
            && (k == Fixed ==>
                  && d.ctype.Sized?
                  && ("binary" <= colType ==> Lower(d.ctype.word) == "binary")
                  && (!("binary" <= colType) ==> Lower(d.ctype.word) == "char"))
  {
    hide Doubled, Occurs, Dec, IsText;
    var t := TypeString(d.ctype);
    LowerConcat(t, " ");
    assert Lower(t + " ") == Lower(t) + " ";
    TypeBeforeSpace(Lower(t));
    SizedIsFixed(Lower(t));
    if d.ctype.Sized? {
      SizedText(d.ctype.word, d.ctype.n);
    }
  }

  lemma SizedIsFixed(t: string)
    ensures "binary" <= t || "char" <= t ==> TypeOf(t) == Fixed
    ensures !("binary" <= t && "char" <= t)
    ensures TypeOf(t) == Fixed ==> "binary" <= t || "char" <= t
  {
    assert "binary" <= t ==> t[0] == 'b' && t[2] == 'n';
    assert "bigint" <= t ==> t[2] == 'g';
    assert "char" <= t ==> t[0] == 'c';
    assert "int" <= t ==> t[0] == 'i';
    assert "double" <= t || "datetime" <= t || "date" <= t ==> t[0] == 'd';
    assert "time" <= t ==> t[0] == 't';
  }

  /** The substrings that are taken for a column. */
  lemma FieldSlices(p: Plan, i: nat, f: FieldDefSplit)
    requires PlanOk(p) && i < |p.defs| && |ListText(p)| >= 4 && SplitRight(p, i, f)
    ensures var s, d := PlanText(p), p.defs[i];
            var t := TypeString(d.ctype);
            && f.name_start <= f.name_end + 1 <= f.type_start <= f.type_end <= f.field_end < |s|
            && s[f.name_start..f.name_end + 1] == Doubled(d.name)
            && s[f.type_start..f.type_end + 1] == t + " "
            && f.type_end == f.type_start + |t|
            && (|t| >= 8 ==> s[f.type_start + 7..f.type_end - 1] == t[7..|t| - 1])
            && (|t| >= 6 ==> s[f.type_start + 5..f.type_end - 1] == t[5..|t| - 1])
            && (Occurs(WIDE, Lower(s[f.type_end..f.field_end + 1])) <==>
                Occurs(WIDE, Lower(d.charset)) || (i + 1 == |p.defs| && WideBehind(p)))
  {
    hide PlanText, ListText, Doubled, FieldText, FieldStart, FieldEnd, Behind, ListEnd, Occurs, At, Lower,
        TypeString, DefOk;
    Pieces(p, i);
    CharsetFound(p, i);
    var s, t := PlanText(p), TypeString(p.defs[i].ctype);
    assert s[f.type_start..f.type_end + 1] == s[f.type_start..][..|t| + 1] == t + " ";
    if |t| >= 8 {
      SliceOfSlice(s, f.type_start, f.type_end, 7, |t| - 1);
    }
    if |t| >= 6 {
      SliceOfSlice(s, f.type_start, f.type_end, 5, |t| - 1);
    }
  }

  lemma ColumnOk(p: Plan, i: nat)
    requires PlanOk(p) && i < |p.defs|
    ensures DefOk(p.defs[i])
  {
  }

  /** The size of a BINARY or CHAR column, from the brackets behind its word. */
  method FixedSize(s: string, f: FieldDefSplit, binary: bool, ghost p: Plan, ghost i: nat) returns (size: nat)
    requires s == PlanText(p) && PlanOk(p) && i < |p.defs| && |ListText(p)| >= 4 && SplitRight(p, i, f)
    requires p.defs[i].ctype.Sized? && DefOk(p.defs[i])
    requires Lower(p.defs[i].ctype.word) == if binary then "binary" else "char"
    ensures size == InfoIn(p, i).size
  {
    hide PlanText, PlanOk, ListText, Doubled, SplitRight, Occurs, At, FindText, ParseNat, Dec, Lower, TypeString;
    FieldSlices(p, i, f);
    SizedText(p.defs[i].ctype.word, p.defs[i].ctype.n);
    if binary {
      size := ParseNat(s[f.type_start + 7..f.type_end - 1]).value;
    } else {
      var sizeInChar := ParseNat(s[f.type_start + 5..f.type_end - 1]).value;
      var collationPart := Lower(s[f.type_end..f.field_end + 1]);
      OccursIsFound(WIDE, collationPart);
      var charSize := if FindText(collationPart, WIDE, 0).Some? then 4 else 3;
      size := sizeInChar * charSize;
    }
  }

  /** One round of the helper's loop. */
  method ReadField(s: string, f: FieldDefSplit, ghost p: Plan, ghost i: nat) returns (info: ColumnInfo)
    requires s == PlanText(p) && PlanOk(p) && i < |p.defs| && |ListText(p)| >= 4 && SplitRight(p, i, f)
    ensures info == InfoIn(p, i)
    ensures var behind := i + 1 == |p.defs| && ',' in p.post && NamesWide(BeforeComma(p.post));
            Means(p.defs[i], NamesWide(p.defs[i].charset) || behind, info)
  {
    hide PlanText, PlanOk, DefOk, Info, WideBehind, ListText, Doubled, SplitRight, Occurs, At, FindText, IsText,
        Lower, TypeString, Means, NamesWide;
    ColumnOk(p, i);
    ReadMeans(p, i);
    FieldSlices(p, i, f);
    InfoByType(p.defs[i], Occurs(WIDE, Lower(p.defs[i].charset)) || (i + 1 == |p.defs| && WideBehind(p)));
    var name := s[f.name_start..f.name_end + 1];
    var colType := Lower(s[f.type_start..f.type_end + 1]);
    if "bigint" <= colType {
      return ColumnInfo(name, Int64, 8);
    }
    if "int" <= colType {
      return ColumnInfo(name, Int32, 4);
    }
    if "double" <= colType {
      return ColumnInfo(name, Double, 8);
    }
    if "datetime" <= colType {
      return ColumnInfo(name, DateTime, 8);
    }
    if "date" <= colType {
      return ColumnInfo(name, Date, 4);
    }
    if "time" <= colType {
      return ColumnInfo(name, Time, 8);
    }
    if "binary" <= colType {
      var size := FixedSize(s, f, true, p, i);
      return ColumnInfo(name, Fixed, size);
    }
    if "char" <= colType {
      var size := FixedSize(s, f, false, p, i);
      return ColumnInfo(name, Fixed, size);
    }
    if IsText(colType) {
      return ColumnInfo(name, Variable, 0);
    }
    return ColumnInfo(name, Unsupported, 0);
  }

  /** Scanning inverts printing: for every list of columns a plan can show, the
      schema has one column for each, with its name, type and size as
      ReadAsDefined says. */
  method ExplainToRowSchema(s: string, ghost p: Plan) returns (schema: seq<ColumnInfo>)
    requires s == PlanText(p) && PlanOk(p)
    ensures |schema| == |p.defs| && forall i :: 0 <= i < |schema| ==> schema[i] == InfoIn(p, i)
    ensures forall i :: 0 <= i < |schema| ==>
              var behind := i + 1 == |p.defs| && ',' in p.post && NamesWide(BeforeComma(p.post));
              Means(p.defs[i], NamesWide(p.defs[i].charset) || behind, schema[i])
  {
    hide PlanText, PlanOk, SplitRight, ListText, InfoIn, Means, NamesWide, DefOk;
    var fieldDefs := SplitFields(s, p);
    schema := [];
    var i := 0;
    while i < |fieldDefs|
      invariant 0 <= i <= |fieldDefs| && |schema| == i
      invariant forall j :: 0 <= j < i ==> schema[j] == InfoIn(p, j)
      invariant forall j :: 0 <= j < i ==>
          var behind := j + 1 == |p.defs| && ',' in p.post && NamesWide(BeforeComma(p.post));
          Means(p.defs[j], NamesWide(p.defs[j].charset) || behind, schema[j])
    {
      var info := ReadField(s, fieldDefs[i], p, i);
      schema := schema + [info];
      i := i + 1;
    }
  }
}
