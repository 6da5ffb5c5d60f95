/** The row schema as it is scanned out of the text of an execution plan. */
module Explain {
  import opened Prelude
  import opened Records
  import opened Decimal
  import opened Joined
  import opened TextSearch
  import opened Identifiers

  const HEADER := " show_columns:["
  const TERMINATOR := "NULL] "
  const WIDE := "utf8mb4"

  // ------------------------------------------------------------------
  // How the plan spells a schema
  // ------------------------------------------------------------------

  /** BINARY and CHAR carry their size; any other type is one word, which may
      hold anything but a space. */
  datatype TypeText = Sized(word: string, n: nat) | Bare(text: string)

  /** A column: its name, its type, and all the rest up to its final NULL. */
  datatype ColumnDef = ColumnDef(name: string, ctype: TypeText, charset: string)

  /** The text before the list of columns, the list, and the text after it. */
  datatype Plan = Plan(pre: string, defs: seq<ColumnDef>, post: string)

  function TypeString(t: TypeText): string {
    match t
    case Sized(word, n) => word + "(" + Dec(n) + ")"
    case Bare(text) => text
  }

  function FieldText(d: ColumnDef): string {
    "`" + (Doubled(d.name) + ("` " + (TypeString(d.ctype) + (" " + d.charset))))
  }

  function FieldTexts(defs: seq<ColumnDef>): (r: seq<string>)
    ensures |r| == |defs| && forall i :: 0 <= i < |r| ==> r[i] == FieldText(defs[i])
  {
    seq(|defs|, i requires 0 <= i < |defs| => FieldText(defs[i]))
  }

  function ListText(p: Plan): string {
    Join(FieldTexts(p.defs), ", ")
  }

  function PlanText(p: Plan): string {
    p.pre + " show_columns:[" + (ListText(p) + ("] " + p.post))
  }

  predicate TypeOk(t: TypeText) {
    match t
    case Sized(word, _) => Lower(word) == "binary" || Lower(word) == "char"
    case Bare(text) => ' ' !in text && !("binary" <= Lower(text)) && !("char" <= Lower(text))
  }

  predicate DefOk(d: ColumnDef) {
    && TypeOk(d.ctype)
    && ',' !in d.charset
    && |d.charset| >= 4 && d.charset[|d.charset| - 4..] == "NULL"
  }

  /** What the scan relies on: the header does not occur before the list, nor the
      terminator in it. */
  ghost predicate PlanOk(p: Plan) {
    && p.defs != [] && (forall i :: 0 <= i < |p.defs| ==> DefOk(p.defs[i]))
    && (forall j :: 0 <= j < |p.pre| ==> !At(PlanText(p), HEADER, j))
    && (forall j :: 0 <= j < |ListText(p)| - 4 ==> !At(ListText(p) + "] ", TERMINATOR, j))
  }

  function BeforeComma(s: string): string {
    if s == "" || s[0] == ',' then "" else [s[0]] + BeforeComma(s[1..])
  }

  // ------------------------------------------------------------------
  // What is read from it
  // ------------------------------------------------------------------

  datatype ColumnInfo = ColumnInfo(name: string, ctype: ColumnType, size: nat)

  /** By the beginning of the type, in lower case. */
  function TypeOf(t: string): ColumnType {
    if "bigint" <= t then Int64
    else if "int" <= t then Int32
    else if "double" <= t then Double
    else if "datetime" <= t then DateTime
    else if "date" <= t then Date
    else if "time" <= t then Time
    else if "binary" <= t || "char" <= t then Fixed
    else if IsText(t) then Variable
    else Unsupported
  }

  predicate IsText(t: string) {
    || "varchar" <= t || "varbinary" <= t || "longtext" <= t || "longblob" <= t || "mediumblob" <= t
    || "blob" <= t || "tinyblob" <= t || "mediumtext" <= t || "text" <= t || "tinytext" <= t
  }

  function ScalarSize(ctype: ColumnType): nat {
    match ctype
    case Int64 => 8
    case Int32 => 4
    case Double => 8
    case DateTime => 8
    case Date => 4
    case Time => 8
    case _ => 0
  }

  /** The column a definition stands for: its name with backticks still doubled,
      and for CHAR the size in bytes, four or three to a character. */
  ghost function InfoOf(d: ColumnDef): ColumnInfo {
    Info(d, Occurs(WIDE, Lower(d.charset)))
  }

  ghost function Info(d: ColumnDef, wide: bool): ColumnInfo {
    match d.ctype
    case Sized(word, n) =>
      ColumnInfo(Doubled(d.name), Fixed, if Lower(word) == "binary" then n else if wide then n * 4 else n * 3)
    case Bare(text) =>
      ColumnInfo(Doubled(d.name), TypeOf(Lower(text)), ScalarSize(TypeOf(Lower(text))))
  }

  /** The text behind the list, up to the first comma if there is one, names the
      wide character set. */
  ghost predicate WideBehind(p: Plan) {
    ',' in p.post && Occurs(WIDE, Lower(BeforeComma(p.post)))
  }

  /** The column as the scan reads it: the last column's character set is looked
      for in the text behind the list as well. */
  ghost function InfoIn(p: Plan, i: nat): ColumnInfo
    requires i < |p.defs|
  {
    Info(p.defs[i], Occurs(WIDE, Lower(p.defs[i].charset)) || (i + 1 == |p.defs| && WideBehind(p)))
  }

  predicate IsChar(t: TypeText) {
    t.Sized? && Lower(t.word) != "binary" && t.n > 0
  }

  /** The scan reads every column as it is defined, unless the last one is a CHAR
      of narrow characters and the wide set is named behind the list. */
  lemma ReadAsDefined(p: Plan)
    requires p.defs != []
    ensures (forall i :: 0 <= i < |p.defs| ==> InfoIn(p, i) == InfoOf(p.defs[i])) <==>
            var d := p.defs[|p.defs| - 1];
            !(IsChar(d.ctype) && WideBehind(p) && !Occurs(WIDE, Lower(d.charset)))
  {
    hide Occurs, Lower, WideBehind, TypeOf;
    assert InfoIn(p, |p.defs| - 1) == InfoOf(p.defs[|p.defs| - 1]) <==>
           var d := p.defs[|p.defs| - 1];
           !(IsChar(d.ctype) && WideBehind(p) && !Occurs(WIDE, Lower(d.charset)));
  }

  /** A plan with one column, `a` char(1), of narrow characters, and the wide set
      named right behind the list: the column is read as four bytes, not three. */
  function Misread(): Plan {
    Plan("", [ColumnDef("a", Sized("char", 1), "NULL")], "utf8mb4,")
  }

  lemma MisreadPlan()
    ensures PlanOk(Misread())
    ensures InfoIn(Misread(), 0) == ColumnInfo("a", Fixed, 4) && InfoOf(Misread().defs[0]) == ColumnInfo("a", Fixed, 3)
  {
    MisreadOk();
    MisreadInfo();
  }

  lemma MisreadOk()
    ensures PlanOk(Misread())
  {
    hide ListText, PlanText, DefOk, At;
    MisreadText();
    MisreadDef();
    NoTerminator();
    assert "`a` char(1) NULL" + "] " == "`a` char(1) NULL] ";
  }

  lemma MisreadDef()
    ensures DefOk(Misread().defs[0])
  {
    hide Lower;
    LowerWords();
    var charset := "NULL";
    assert charset[|charset| - 4..] == "NULL";
  }

  lemma MisreadInfo()
    ensures InfoIn(Misread(), 0) == ColumnInfo("a", Fixed, 4) && InfoOf(Misread().defs[0]) == ColumnInfo("a", Fixed, 3)
  {
    hide Lower, Occurs, BeforeComma, Doubled;
    LowerWords();
    NamedBehind();
  }

  lemma LowerWords()
    ensures Lower("char") == "char" && !Occurs(WIDE, Lower("NULL")) && Doubled("a") == "a"
  {
    assert Doubled("") == "";
  }

  lemma NoTerminator()
    ensures forall j :: 0 <= j < 12 ==> !At("`a` char(1) NULL] ", TERMINATOR, j)
  {
    var list := "`a` char(1) NULL] ";
    forall j | 0 <= j < 12 ensures !At(list, TERMINATOR, j) {
      AtBegins(list, TERMINATOR, j);
    }
  }

  lemma NamedBehind()
    ensures ',' in "utf8mb4," && Occurs(WIDE, Lower(BeforeComma("utf8mb4,")))
  {
    CommaAt("utf8mb4");
    assert "utf8mb4" + "," == "utf8mb4,";
    assert Lower("utf8mb4") == WIDE && At(WIDE, WIDE, 0);
    assert "utf8mb4,"[7] == ',';
  }

  lemma MisreadText()
    ensures ListText(Misread()) == "`a` char(1) NULL"
  {
    var d := Misread().defs[0];
    assert Dec(1) == "1" && TypeString(d.ctype) == "char(1)";
    assert Doubled("a") == "a";
    assert FieldTexts(Misread().defs) == [FieldText(d)];
  }

  lemma {:induction false} CommaAt(s: string)
    requires ',' !in s
    ensures BeforeComma(s + ",") == s
  {
    if s != "" {
      CommaAt(s[1..]);
      assert (s + ",")[1..] == s[1..] + ",";
    }
  }

  datatype FieldDefSplit = FieldDefSplit(name_start: nat, name_end: nat, type_start: nat, type_end: nat, field_end: nat)

  // ------------------------------------------------------------------
  // Where the pieces lie
  // ------------------------------------------------------------------

  /** The opening backtick of column i. */
  function FieldStart(p: Plan, i: nat): (b: nat)
    requires i <= |p.defs|
    ensures b >= |p.pre| + |HEADER|
  {
    if i == 0 then |p.pre| + |HEADER| else FieldStart(p, i - 1) + |FieldText(p.defs[i - 1])| + 2
  }

  /** The bracket that closes the list. */
  function ListEnd(p: Plan): nat {
    |p.pre| + |HEADER| + |ListText(p)|
  }

  /** The comma behind column i, or for the last one the first comma behind the
      list, or else the terminator. */
  function FieldEnd(p: Plan, i: nat): nat
    requires i < |p.defs| && |ListText(p)| >= 4
  {
    if i + 1 < |p.defs| then FieldStart(p, i) + |FieldText(p.defs[i])|
    else match FindChar(PlanText(p), ',', ListEnd(p)) case Some(j) => j case None => ListEnd(p) - 4
  }

  predicate SplitRight(p: Plan, i: nat, f: FieldDefSplit)
    requires i < |p.defs| && |ListText(p)| >= 4
  {
    var b, d := FieldStart(p, i), p.defs[i];
    && f.name_start == b + 1 && f.name_end == b + |Doubled(d.name)|
    && f.type_start == b + |Doubled(d.name)| + 3
    && f.type_end == f.type_start + |TypeString(d.ctype)|
    && f.field_end == FieldEnd(p, i)
  }

  /** What follows column i in the text. */
  function Behind(p: Plan, i: nat): string
    requires i < |p.defs|
  {
    if i + 1 < |p.defs| then ", " + (Join(FieldTexts(p.defs[i + 1..]), ", ") + ("] " + p.post)) else "] " + p.post
  }

  function ListFrom(p: Plan, i: nat): string
    requires i <= |p.defs|
  {
    Join(FieldTexts(p.defs[i..]), ", ") + ("] " + p.post)
  }

  lemma ListFront(p: Plan, i: nat)
    requires i < |p.defs|
    ensures ListFrom(p, i) == FieldText(p.defs[i]) + Behind(p, i)
    ensures i + 1 < |p.defs| ==> Behind(p, i) == ", " + ListFrom(p, i + 1)
  {
    hide FieldText;
    var rest := FieldTexts(p.defs[i..]);
    assert rest[1..] == FieldTexts(p.defs[i + 1..]);
    if i + 1 < |p.defs| {
      Reassociate(rest[0], ", ", Join(rest[1..], ", "), "] " + p.post);
    }
  }

  lemma Reassociate(a: string, b: string, c: string, d: string)
    ensures a + b + c + d == a + (b + (c + d))
  {
  }

  lemma {:induction false} FieldsFrom(p: Plan, i: nat)
    requires i < |p.defs|
    ensures FieldStart(p, i) <= |PlanText(p)| && PlanText(p)[FieldStart(p, i)..] == ListFrom(p, i)
    ensures ListFrom(p, i) == FieldText(p.defs[i]) + Behind(p, i)
  {
    hide FieldText, ListFrom, Behind;
    ListFront(p, i);
    if i == 0 {
      FromTheFirst(p);
    } else {
      FieldsFrom(p, i - 1);
      ListFront(p, i - 1);
      Dropped(PlanText(p), FieldStart(p, i - 1), FieldText(p.defs[i - 1]), ", ", ListFrom(p, i));
    }
  }

  lemma FromTheFirst(p: Plan)
    ensures FieldStart(p, 0) <= |PlanText(p)| && PlanText(p)[FieldStart(p, 0)..] == ListFrom(p, 0)
  {
    hide Join, FieldText;
    assert p.defs[0..] == p.defs;
    assert ListFrom(p, 0) == ListText(p) + ("] " + p.post);
    assert PlanText(p) == (p.pre + HEADER) + ListFrom(p, 0);
  }

  lemma Dropped(s: string, at: nat, a: string, b: string, c: string)
    requires at <= |s| && s[at..] == a + (b + c)
    ensures at + |a| + |b| <= |s| && s[at + |a| + |b|..] == c && s[at + |a|..at + |a| + |b|] == b
  {
    var rest := a + (b + c);
    assert |rest| == |s| - at;
    assert rest[|a| + |b|..] == c && rest[|a|..|a| + |b|] == b;
  }

  /** The character or two in front of a column. */
  lemma Lead(p: Plan, i: nat)
    requires i < |p.defs|
    ensures var s, b := PlanText(p), FieldStart(p, i);
            && b <= |s|
            && (i == 0 ==> s[b - 1] == '[')
            && (i > 0 ==> s[b - 2..b] == ", ")
  {
    hide FieldText, ListFrom, Behind, ListText;
    FieldsFrom(p, i);
    var s, b := PlanText(p), FieldStart(p, i);
    if i == 0 {
      assert s[b - 1] == HEADER[14];
    } else {
      FieldsFrom(p, i - 1);
      ListFront(p, i - 1);
      Dropped(s, FieldStart(p, i - 1), FieldText(p.defs[i - 1]), ", ", ListFrom(p, i));
    }
  }

  lemma ListIsLong(p: Plan)
    requires p.defs != [] && forall i :: 0 <= i < |p.defs| ==> DefOk(p.defs[i])
    ensures |ListText(p)| >= 8
    ensures forall i :: 0 <= i < |p.defs| ==> FieldStart(p, i) + 8 <= ListEnd(p)
  {
    hide FieldText, ListText, DefOk;
    forall i | 0 <= i < |p.defs| ensures FieldStart(p, i) + 8 <= ListEnd(p) {
      FieldIsLong(p.defs[i]);
      Remains(p, i);
    }
    assert FieldStart(p, 0) + 8 <= ListEnd(p);
  }

  lemma Remains(p: Plan, i: nat)
    requires i < |p.defs|
    ensures FieldStart(p, i) + |FieldText(p.defs[i])| <= ListEnd(p)
    ensures i + 1 == |p.defs| ==> FieldStart(p, i) + |FieldText(p.defs[i])| == ListEnd(p)
  {
    hide FieldText, Join;
    FieldsFrom(p, i);
    assert |PlanText(p)| == ListEnd(p) + |"] " + p.post|;
  }

  lemma FieldIsLong(d: ColumnDef)
    requires DefOk(d)
    ensures |FieldText(d)| >= 8
  {
  }

  // ------------------------------------------------------------------
  // What each search of the scan finds
  // ------------------------------------------------------------------

  lemma TypeHasNoSpace(t: TypeText)
    requires TypeOk(t)
    ensures ' ' !in TypeString(t)
  {
    if t.Sized? {
      var digits := Dec(t.n);
      assert forall i :: 0 <= i < |digits| ==> IsDigit(digits[i]);
      forall i | 0 <= i < |t.word| ensures t.word[i] != ' ' {
        assert Lower(t.word)[i] == LowerChar(t.word[i]);
        assert Lower(t.word)[i] in Lower(t.word);
      }
    }
  }

  lemma Assoc(a: string, b: string, c: string)
    ensures (a + b) + c == a + (b + c)
  {
  }

  /** The text from column i on, piece by piece. */
  lemma Nested(p: Plan, i: nat)
    requires i < |p.defs|
    ensures var d := p.defs[i];
            FieldStart(p, i) <= |PlanText(p)| && PlanText(p)[FieldStart(p, i)..] ==
            "`" + (Doubled(d.name) + ("` " + (TypeString(d.ctype) + (" " + (d.charset + Behind(p, i))))))
  {
    hide Doubled, TypeString, Behind, FieldStart, PlanText, ListFrom;
    FieldsFrom(p, i);
    var d := p.defs[i];
    var behind := Behind(p, i);
    var t3 := " " + d.charset;
    var t2 := TypeString(d.ctype) + t3;
    var t1 := "` " + t2;
    Assoc("`", Doubled(d.name) + t1, behind);
    Assoc(Doubled(d.name), t1, behind);
    Assoc("` ", t2, behind);
    Assoc(TypeString(d.ctype), t3, behind);
    Assoc(" ", d.charset, behind);
  }

  /** The pieces of column i, one behind the other. */
  lemma Pieces(p: Plan, i: nat)
    requires i < |p.defs|
    ensures var s, b, d := PlanText(p), FieldStart(p, i), p.defs[i];
            var ts := b + |Doubled(d.name)| + 3;
            var te := ts + |TypeString(d.ctype)|;
            && te + 1 + |d.charset| + |Behind(p, i)| == |s|
            && s[b] == '`'
            && s[b + 1..] == Doubled(d.name) + "`" + (" " + (TypeString(d.ctype) + (" " + (d.charset + Behind(p, i)))))
            && s[b + 1..b + 1 + |Doubled(d.name)|] == Doubled(d.name)
            && s[ts..] == TypeString(d.ctype) + " " + (d.charset + Behind(p, i))
            && s[ts..te] == TypeString(d.ctype)
            && s[te..] == " " + (d.charset + Behind(p, i))
            && te + 1 + |d.charset| == b + |FieldText(d)|
  {
    hide Doubled, TypeString, Behind, PlanText, FieldStart;
    Nested(p, i);
    var d := p.defs[i];
    PiecesOf(PlanText(p), FieldStart(p, i), Doubled(d.name), TypeString(d.ctype), d.charset + Behind(p, i));
  }

  lemma PiecesOf(s: string, b: nat, name: string, ctype: string, tail: string)
    requires b <= |s| && s[b..] == "`" + (name + ("` " + (ctype + (" " + tail))))
    ensures var ts := b + |name| + 3;
            var te := ts + |ctype|;
            && te + 1 + |tail| == |s|
            && s[b] == '`' && s[b + 1..] == name + "`" + (" " + (ctype + (" " + tail)))
            && s[b + 1..b + 1 + |name|] == name
            && s[ts..] == ctype + " " + tail
            && s[ts..te] == ctype
            && s[te..] == " " + tail
  {
    var ts := b + |name| + 3;
    var rest := ctype + (" " + tail);
    Peel(s, b, "`", name + ("` " + rest));
    Peel(s, b + 1, name, "` " + rest);
    Peel(s, b + 1 + |name|, "` ", rest);
    Peel(s, ts, ctype, " " + tail);
    Assoc(ctype, " ", tail);
    Assoc(name, "`", " " + rest);
    Assoc("`", " ", rest);
    assert "` " == "`" + " ";
  }

  lemma Peel(s: string, at: nat, a: string, rest: string)
    requires at <= |s| && s[at..] == a + rest
    ensures at + |a| + |rest| == |s| && s[at..at + |a|] == a && s[at + |a|..] == rest
    ensures a != "" ==> s[at] == a[0]
  {
    var all := a + rest;
    assert |all| == |s| - at;
    assert all[..|a|] == a && all[|a|..] == rest;
    assert a != "" ==> s[at] == s[at..][0] == all[0];
  }

  lemma NameFound(p: Plan, i: nat, from: nat)
    requires i < |p.defs| && from == FieldStart(p, i) - (if i == 0 then 1 else 2)
    ensures from <= |PlanText(p)| && FindChar(PlanText(p), '`', from) == Some(FieldStart(p, i))
  {
    hide Doubled, TypeString, Behind, FieldText, FieldStart, PlanText;
    Pieces(p, i);
    Lead(p, i);
    var s, b := PlanText(p), FieldStart(p, i);
    assert i > 0 ==> s[b - 2] == s[b - 2..b][0] && s[b - 1] == s[b - 2..b][1];
    FindCharFinds(s, '`', from, b);
  }

  lemma TypeFound(p: Plan, i: nat)
    requires i < |p.defs| && DefOk(p.defs[i])
    ensures var ts := FieldStart(p, i) + |Doubled(p.defs[i].name)| + 3;
            FindChar(PlanText(p), ' ', ts) == Some(ts + |TypeString(p.defs[i].ctype)|)
  {
    hide Doubled, TypeString, Behind, FieldText, FieldStart, PlanText;
    Pieces(p, i);
    TypeHasNoSpace(p.defs[i].ctype);
    var ts := FieldStart(p, i) + |Doubled(p.defs[i].name)| + 3;
    FindBehind(PlanText(p), ts, TypeString(p.defs[i].ctype), ' ', p.defs[i].charset + Behind(p, i));
  }

  /** The comma behind column i, if it has one. */
  lemma CommaFound(p: Plan, i: nat)
    requires i < |p.defs| && DefOk(p.defs[i])
    ensures var te := FieldStart(p, i) + |Doubled(p.defs[i].name)| + 3 + |TypeString(p.defs[i].ctype)|;
            FindChar(PlanText(p), ',', te) ==
            if i + 1 < |p.defs| then Some(FieldStart(p, i) + |FieldText(p.defs[i])|)
            else FindChar(PlanText(p), ',', ListEnd(p))
  {
    hide Doubled, TypeString, ListFrom, FieldText, FieldStart, PlanText, ListEnd, Behind, FindChar, DefOk, Dec;
    var s, d := PlanText(p), p.defs[i];
    var te := FieldStart(p, i) + |Doubled(d.name)| + 3 + |TypeString(d.ctype)|;
    Pieces(p, i);
    Remains(p, i);
    ListFront(p, i);
    NoComma(d);
    Assoc(" ", d.charset, Behind(p, i));
    if i + 1 < |p.defs| {
      CommaNext(s, te, " " + d.charset, ListFrom(p, i + 1));
    } else {
      SkipsFront(s, te, " " + d.charset, Behind(p, i));
    }
  }

  lemma NoComma(d: ColumnDef)
    requires DefOk(d)
    ensures ',' !in " " + d.charset
  {
  }

  lemma CommaNext(s: string, from: nat, front: string, rest: string)
    requires from <= |s| && s[from..] == front + (", " + rest) && ',' !in front
    ensures FindChar(s, ',', from) == Some(from + |front|)
  {
    assert front + (", " + rest) == front + [','] + (" " + rest);
    FindBehind(s, from, front, ',', " " + rest);
  }

  lemma ListFound(p: Plan)
    requires PlanOk(p)
    ensures var s := PlanText(p);
            && FindText(s, HEADER, 0) == Some(|p.pre|)
            && FindChar(s, '[', |p.pre|) == Some(FieldStart(p, 0) - 1)
            && FindText(s, TERMINATOR, |p.pre|) == Some(ListEnd(p) - 4)
  {
    hide ListText, DefOk, FindText, FindChar, Occurs, At, PlanText;
    HeaderFound(p);
    ListIsLong(p);
    EndsInNull(p);
    ListStands(p);
    var ended := ListText(p) + "] ";
    assert ended[|ListText(p)| - 4..|ListText(p)| + 2] == TERMINATOR;
    TerminatorFound(PlanText(p), |p.pre|, |p.pre| + |HEADER|, ended);
  }

  lemma ListStands(p: Plan)
    ensures var s, z, ended := PlanText(p), |p.pre| + |HEADER|, ListText(p) + "] ";
            z + |ended| <= |s| && s[z..z + |ended|] == ended
  {
    hide ListText;
    Assoc(ListText(p), "] ", p.post);
    Dropped(PlanText(p), 0, p.pre + HEADER, ListText(p) + "] ", p.post);
  }

  lemma TerminatorFound(s: string, from: nat, z: nat, ended: string)
    requires from <= z <= z + |ended| <= |s| && s[z..z + |ended|] == ended
    requires |ended| >= 6 && ended[|ended| - 6..] == TERMINATOR
    requires forall x :: from <= x < z ==> s[x] != 'N'
    requires forall j :: 0 <= j < |ended| - 6 ==> !At(ended, TERMINATOR, j)
    ensures FindText(s, TERMINATOR, from) == Some(z + |ended| - 6)
  {
    hide At, FindText;
    AtWithin(s, z, ended, |ended| - 6);
    AtEnd(ended);
    forall x | from <= x < z + |ended| - 6 ensures !At(s, TERMINATOR, x) {
      if x < z {
        AtBegins(s, TERMINATOR, x);
      } else {
        AtWithin(s, z, ended, x - z);
      }
    }
    FindTextFinds(s, TERMINATOR, from, z + |ended| - 6);
  }

  lemma AtEnd(ended: string)
    requires |ended| >= 6 && ended[|ended| - 6..] == TERMINATOR
    ensures At(ended, TERMINATOR, |ended| - 6)
  {
  }

  lemma AtWithin(s: string, z: nat, ended: string, j: nat)
    requires z + |ended| <= |s| && s[z..z + |ended|] == ended && j + 6 <= |ended|
    ensures At(s, TERMINATOR, z + j) <==> At(ended, TERMINATOR, j)
  {
    SliceOfSlice(s, z, z + |ended|, j, j + 6);
  }

  lemma SkipsFront(s: string, from: nat, front: string, rest: string)
    requires from <= |s| && s[from..] == front + rest && ',' !in front
    ensures FindChar(s, ',', from) == FindChar(s, ',', from + |front|)
  {
    Peel(s, from, front, rest);
    forall x | from <= x < from + |front| ensures s[x] != ',' {
      assert s[x] == s[from..from + |front|][x - from];
    }
    FindCharSkips(s, ',', from, from + |front|);
  }

  lemma HeaderFound(p: Plan)
    requires forall j :: 0 <= j < |p.pre| ==> !At(PlanText(p), HEADER, j)
    ensures var s := PlanText(p); var z := |p.pre| + |HEADER|;
            && z <= |s| && (forall x :: |p.pre| <= x < z ==> s[x] == HEADER[x - |p.pre|] != 'N')
            && FindText(s, HEADER, 0) == Some(|p.pre|)
            && FindChar(s, '[', |p.pre|) == Some(z - 1)
  {
    hide ListText, FindText, FindChar;
    var s := PlanText(p);
    var z := |p.pre| + |HEADER|;
    assert s[|p.pre|..z] == HEADER;
    assert forall x :: |p.pre| <= x < z ==> s[x] == s[|p.pre|..z][x - |p.pre|];
    FindTextFinds(s, HEADER, 0, |p.pre|);
    FindCharFinds(s, '[', |p.pre|, z - 1);
  }

  lemma EndsInNull(p: Plan)
    requires p.defs != [] && (forall i :: 0 <= i < |p.defs| ==> DefOk(p.defs[i])) && |ListText(p)| >= 4
    ensures ListText(p)[|ListText(p)| - 4..] == "NULL"
  {
    hide ListText, PlanText, ListEnd, DefOk;
    LastCharset(p);
    ListIn(p);
    assert DefOk(p.defs[|p.defs| - 1]);
    LastFour(p.defs[|p.defs| - 1]);
    ListLength(p);
    SameEnd(PlanText(p), ListEnd(p), p.defs[|p.defs| - 1].charset, ListText(p));
  }

  lemma LastFour(d: ColumnDef)
    requires DefOk(d)
    ensures |d.charset| >= 4 && d.charset[|d.charset| - 4..] == "NULL"
  {
  }

  lemma ListLength(p: Plan)
    ensures ListEnd(p) - |ListText(p)| == |p.pre| + |HEADER|
  {
  }

  /** The last column's character set ends where the list does. */
  lemma LastCharset(p: Plan)
    requires p.defs != []
    ensures var charset := p.defs[|p.defs| - 1].charset;
            && |charset| <= ListEnd(p) <= |PlanText(p)|
            && PlanText(p)[ListEnd(p) - |charset|..ListEnd(p)] == charset
  {
    hide Doubled, TypeString, ListText, PlanText, FieldText, FieldStart, Behind, ListEnd;
    var i := |p.defs| - 1;
    Pieces(p, i);
    Remains(p, i);
    CharsetStands(PlanText(p), ListEnd(p) - |p.defs[i].charset| - 1, p.defs[i].charset, Behind(p, i));
  }

  lemma CharsetStands(s: string, te: nat, charset: string, behind: string)
    requires te <= |s| && s[te..] == " " + (charset + behind)
    ensures te + 1 + |charset| <= |s| && s[te + 1..te + 1 + |charset|] == charset
  {
    Peel(s, te, " ", charset + behind);
    Peel(s, te + 1, charset, behind);
  }

  lemma ListIn(p: Plan)
    ensures ListEnd(p) <= |PlanText(p)| && PlanText(p)[|p.pre| + |HEADER|..ListEnd(p)] == ListText(p)
  {
    hide ListText, PlanText;
    ListStands(p);
    var from, list := |p.pre| + |HEADER|, ListText(p);
    SliceOfSlice(PlanText(p), from, from + |list| + 2, 0, |list|);
    assert (list + "] ")[..|list|] == list;
  }

  lemma SameEnd(s: string, z: nat, a: string, b: string)
    requires |a| <= z <= |s| && |b| <= z && 4 <= |a| && 4 <= |b|
    requires s[z - |a|..z] == a && s[z - |b|..z] == b
    ensures a[|a| - 4..] == b[|b| - 4..]
  {
    SliceOfSlice(s, z - |a|, z, |a| - 4, |a|);
    SliceOfSlice(s, z - |b|, z, |b| - 4, |b|);
  }
}
