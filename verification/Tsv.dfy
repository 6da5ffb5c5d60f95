/** The text of a chunk in tab-separated form, and why it can be read only one way. */
module Tsv {
  import opened Prelude
  import opened Bytes
  import opened Clock
  import opened Records
  import opened Decimal
  import opened TimeText
  import opened Joined

  // ------------------------------------------------------------------
  // Printing
  // ------------------------------------------------------------------

  /** The text forms that come from the C library, with their readers. */
  datatype Formats = Formats(
    double: seq<Byte> -> string, readDouble: string -> Option<seq<Byte>>,
    date: int -> string, readDate: string -> Option<int>,
    dateTime: int -> string, readDateTime: string -> Option<int>)

  const NULL_TEXT := "\\N"

  /** std::quoted with '"' and '\\'. */
  function Quoted(s: string): string {
    "\"" + Escaped(s) + "\""
  }

  function Escaped(s: string): string {
    if s == "" then ""
    else if s[0] == '"' || s[0] == '\\' then ['\\', s[0]] + Escaped(s[1..])
    else [s[0]] + Escaped(s[1..])
  }

  /** The values a column can yield. */
  predicate ValueOk(ctype: ColumnType, v: Value) {
    v.NullValue? ||
    match ctype
    case Double => v.DoubleValue? && |v.bytes| == 8 && !IsNaN(v.bytes)
    case Variable => v.Text?
    case Fixed => v.Text?
    case Unsupported => false
    case _ => v.IntValue?
  }

  function CellText(ctype: ColumnType, v: Value, f: Formats): string
    requires ValueOk(ctype, v)
  {
    if v.NullValue? then NULL_TEXT else
    match ctype
    case Int64 => DecInt(v.num)
    case Int32 => DecInt(v.num)
    case Double => f.double(v.bytes)
    case Variable => Quoted(v.bytes)
    case Fixed => Quoted(v.bytes)
    case Time => FromTimeCAS(v.num)
    case Date => f.date(v.num)
    case DateTime => f.dateTime(v.num)
  }

  predicate ValuesOk(schema: seq<Column>, values: seq<Value>) {
    |values| == |schema| && forall i :: 0 <= i < |schema| ==> ValueOk(schema[i].ctype, values[i])
  }

  function CellTexts(schema: seq<Column>, values: seq<Value>, f: Formats): (r: seq<string>)
    requires ValuesOk(schema, values)
    ensures |r| == |schema| && forall i :: 0 <= i < |r| ==> r[i] == CellText(schema[i].ctype, values[i], f)
  {
    seq(|schema|, i requires 0 <= i < |schema| => CellText(schema[i].ctype, values[i], f))
  }

  function RowText(schema: seq<Column>, values: seq<Value>, f: Formats): string
    requires ValuesOk(schema, values)
  {
    Join(CellTexts(schema, values, f), "\t")
  }

  ghost predicate TableOk(schema: seq<Column>, table: seq<seq<Value>>) {
    forall r :: 0 <= r < |table| ==> ValuesOk(schema, table[r])
  }

  function RowTexts(schema: seq<Column>, table: seq<seq<Value>>, f: Formats): (r: seq<string>)
    requires forall r :: 0 <= r < |table| ==> ValuesOk(schema, table[r])
    ensures |r| == |table| && forall i :: 0 <= i < |r| ==> r[i] == RowText(schema, table[i], f)
  {
    seq(|table|, i requires 0 <= i < |table| => RowText(schema, table[i], f))
  }

  function TableText(schema: seq<Column>, table: seq<seq<Value>>, f: Formats): string
    requires forall r :: 0 <= r < |table| ==> ValuesOk(schema, table[r])
  {
    Join(RowTexts(schema, table, f), "\n")
  }

  // ------------------------------------------------------------------
  // Reading: cells first
  // ------------------------------------------------------------------

  datatype Token = Missing | Plain(text: string) | InQuotes(text: string)

  /** The text inside quotes and what follows the closing one. */
  function ReadQuoted(s: string): Option<(string, string)> {
    if s == "" then None
    else if s[0] == '"' then Some(("", s[1..]))
    else if s[0] == '\\' then
      if |s| == 1 then None
      else match ReadQuoted(s[2..])
           case None => None
           case Some(p) => Some(([s[1]] + p.0, p.1))
    else
      match ReadQuoted(s[1..])
      case None => None
      case Some(p) => Some(([s[0]] + p.0, p.1))
  }

  predicate IsBreak(c: char) {
    c == '\t' || c == '\n'
  }

  function PlainLength(s: string): (n: nat)
    ensures n <= |s|
  {
    if s == "" || IsBreak(s[0]) then 0 else 1 + PlainLength(s[1..])
  }

  function ReadCell(s: string): Option<(Token, string)> {
    if s != "" && s[0] == '"' then
      match ReadQuoted(s[1..])
      case None => None
      case Some(p) => Some((InQuotes(p.0), p.1))
    else
      var n := PlainLength(s);
      Some((if s[..n] == "\\N" then Missing else Plain(s[..n]), s[n..]))
  }

  lemma {:induction false} ReadQuotedShrinks(s: string)
    ensures ReadQuoted(s).Some? ==> |ReadQuoted(s).value.1| < |s|
  {
    if s != "" && s[0] != '"' {
      if s[0] == '\\' {
        if |s| > 1 {
          ReadQuotedShrinks(s[2..]);
        }
      } else {
        ReadQuotedShrinks(s[1..]);
      }
    }
  }

  lemma ReadCellShrinks(s: string)
    ensures ReadCell(s).Some? ==> |ReadCell(s).value.1| <= |s|
  {
    if s != "" && s[0] == '"' {
      ReadQuotedShrinks(s[1..]);
    }
  }

  /** All the cells of a text, row by row. */
  function ReadTable(s: string): Option<seq<seq<Token>>>
    decreases |s|
  {
    ReadCellShrinks(s);
    match ReadCell(s)
    case None => None
    case Some(p) =>
      if p.1 == "" then Some([[p.0]])
      else if !IsBreak(p.1[0]) then None
      else
        match ReadTable(p.1[1..])
        case None => None
        case Some(t) =>
          if p.1[0] == '\n' then Some([[p.0]] + t)
          else if t == [] then None
          else Some([[p.0] + t[0]] + t[1..])
  }

  // ------------------------------------------------------------------
  // Every cell is read back as the token it spells
  // ------------------------------------------------------------------

  predicate PlainText(s: string) {
    s != "" && s[0] != '"' && s != NULL_TEXT && forall i :: 0 <= i < |s| ==> !IsBreak(s[i])
  }

  predicate Spells(text: string, t: Token) {
    match t
    case Missing => text == NULL_TEXT
    case Plain(s) => text == s && PlainText(s)
    case InQuotes(s) => text == Quoted(s)
  }

  /** What may follow a cell. */
  predicate Follows(rest: string) {
    rest == "" || IsBreak(rest[0])
  }

  lemma {:induction false} QuotedBack(s: string, rest: string)
    ensures ReadQuoted(Escaped(s) + "\"" + rest) == Some((s, rest))
  {
    var text := Escaped(s) + "\"" + rest;
    if s == "" {
      assert text == "\"" + rest;
    } else {
      QuotedBack(s[1..], rest);
      assert s == [s[0]] + s[1..];
      var tail := Escaped(s[1..]) + "\"" + rest;
      if s[0] == '"' || s[0] == '\\' {
        assert text == ['\\', s[0]] + tail;
        assert text[2..] == tail;
      } else {
        assert text == [s[0]] + tail;
        assert text[1..] == tail;
      }
    }
  }

  lemma {:induction false} PlainBack(s: string, rest: string)
    requires Follows(rest) && forall i :: 0 <= i < |s| ==> !IsBreak(s[i])
    ensures PlainLength(s + rest) == |s|
  {
    if s != "" {
      assert (s + rest)[1..] == s[1..] + rest;
      PlainBack(s[1..], rest);
    } else {
      assert s + rest == rest;
    }
  }

  lemma CellBack(text: string, t: Token, rest: string)
    requires Spells(text, t) && Follows(rest)
    ensures ReadCell(text + rest) == Some((t, rest))
  {
    if t.InQuotes? {
      QuotedBack(t.text, rest);
      assert (text + rest)[1..] == Escaped(t.text) + "\"" + rest;
    } else {
      PlainBack(text, rest);
      assert (text + rest)[..|text|] == text && (text + rest)[|text|..] == rest;
      assert (text + rest)[0] == text[0];
    }
  }

  predicate RowSpells(texts: seq<string>, tokens: seq<Token>) {
    |texts| == |tokens| && forall i :: 0 <= i < |texts| ==> Spells(texts[i], tokens[i])
  }

  /** One cell, and what is read behind it. */
  lemma ReadTableStep(s: string, t: Token, rest: string)
    requires ReadCell(s) == Some((t, rest)) && |rest| <= |s|
    ensures rest == "" ==> ReadTable(s) == Some([[t]])
    ensures rest != "" && rest[0] == '\n' && ReadTable(rest[1..]).Some? ==>
              ReadTable(s) == Some([[t]] + ReadTable(rest[1..]).value)
    ensures rest != "" && rest[0] == '\t' && ReadTable(rest[1..]).Some? && ReadTable(rest[1..]).value != [] ==>
              ReadTable(s) == Some([[t] + ReadTable(rest[1..]).value[0]] + ReadTable(rest[1..]).value[1..])
  {
    hide ReadCell;
  }

  /** A row ends the text, or a line break and more rows follow. */
  lemma {:induction false} RowBack(texts: seq<string>, tokens: seq<Token>, rest: string)
    requires RowSpells(texts, tokens) && texts != []
    requires rest == "" || (rest[0] == '\n' && ReadTable(rest[1..]).Some?)
    ensures ReadTable(Join(texts, "\t") + rest) ==
            Some([tokens] + if rest == "" then [] else ReadTable(rest[1..]).value)
    decreases |texts|
  {
    hide Spells, ReadCell, ReadTable;
    if |texts| == 1 {
      CellBack(texts[0], tokens[0], rest);
      ReadTableStep(texts[0] + rest, tokens[0], rest);
      assert [tokens[0]] == tokens && [tokens] + [] == [tokens];
    } else {
      var more := Join(texts[1..], "\t") + rest;
      JoinFirst(texts, "\t", rest);
      CellBack(texts[0], tokens[0], "\t" + more);
      RowBack(texts[1..], tokens[1..], rest);
      assert ("\t" + more)[1..] == more;
      ReadTableStep(texts[0] + ("\t" + more), tokens[0], "\t" + more);
      FirstOfRow(tokens, if rest == "" then [] else ReadTable(rest[1..]).value);
    }
  }

  lemma FirstOfRow(tokens: seq<Token>, below: seq<seq<Token>>)
    requires tokens != []
    ensures var t := [tokens[1..]] + below; [[tokens[0]] + t[0]] + t[1..] == [tokens] + below
  {
    assert [tokens[0]] + tokens[1..] == tokens;
    assert ([tokens[1..]] + below)[1..] == below;
  }

  lemma {:induction false} TableBack(rows: seq<seq<string>>, tokens: seq<seq<Token>>, lines: seq<string>)
    requires rows != [] && |rows| == |tokens| == |lines|
    requires forall r :: 0 <= r < |rows| ==>
        rows[r] != [] && RowSpells(rows[r], tokens[r]) && lines[r] == Join(rows[r], "\t")
    ensures ReadTable(Join(lines, "\n")) == Some(tokens)
    decreases |rows|
  {
    hide RowSpells, ReadTable;
    if |rows| == 1 {
      assert Join(lines, "\n") == lines[0] + "";
      RowBack(rows[0], tokens[0], "");
      assert [tokens[0]] + [] == tokens;
    } else {
      TableBack(rows[1..], tokens[1..], lines[1..]);
      var more := Join(lines[1..], "\n");
      assert Join(lines, "\n") == lines[0] + ("\n" + more);
      assert ("\n" + more)[1..] == more;
      RowBack(rows[0], tokens[0], "\n" + more);
      assert [tokens[0]] + tokens[1..] == tokens;
    }
  }

  // ------------------------------------------------------------------
  // Values
  // ------------------------------------------------------------------

  function TokenOf(ctype: ColumnType, v: Value, f: Formats): Token
    requires ValueOk(ctype, v)
  {
    if v.NullValue? then Missing
    else if v.Text? then InQuotes(v.bytes)
    else Plain(CellText(ctype, v, f))
  }

  function ToBytes(s: string): Option<seq<Byte>> {
    if forall i :: 0 <= i < |s| ==> s[i] as int < 256
    then Some(seq(|s|, i requires 0 <= i < |s| => var c: Byte := s[i]; c))
    else None
  }

  function IntOf(n: Option<int>): Option<Value> {
    match n case None => None case Some(v) => Some(IntValue(v))
  }

  /** The value a cell stands for in a column of the given type. */
  function ReadValue(ctype: ColumnType, t: Token, f: Formats): Option<Value> {
    match t
    case Missing => Some(NullValue)
    case InQuotes(s) =>
      if ctype.Variable? || ctype.Fixed?
      then match ToBytes(s) case None => None case Some(b) => Some(Text(b))
      else None
    case Plain(s) =>
      match ctype
      case Int64 => IntOf(ParseInt(s))
      case Int32 => IntOf(ParseInt(s))
      case Time => IntOf(TimeNumber(s))
      case Date => IntOf(f.readDate(s))
      case DateTime => IntOf(f.readDateTime(s))
      case Double => (match f.readDouble(s) case None => None case Some(b) => Some(DoubleValue(b)))
      case _ => None
  }

  function ReadRow(schema: seq<Column>, tokens: seq<Token>, f: Formats): Option<seq<Value>> {
    if |tokens| != |schema| then None
    else if tokens == [] then Some([])
    else match (ReadValue(schema[0].ctype, tokens[0], f), ReadRow(schema[1..], tokens[1..], f))
         case (Some(v), Some(rest)) => Some([v] + rest)
         case _ => None
  }

  function ReadRows(schema: seq<Column>, table: seq<seq<Token>>, f: Formats): Option<seq<seq<Value>>> {
    if table == [] then Some([])
    else match (ReadRow(schema, table[0], f), ReadRows(schema, table[1..], f))
         case (Some(v), Some(rest)) => Some([v] + rest)
         case _ => None
  }

  /** The whole reader: an empty text has no rows. */
  function Read(schema: seq<Column>, s: string, f: Formats): Option<seq<seq<Value>>> {
    if s == "" then Some([])
    else match ReadTable(s)
         case None => None
         case Some(t) => ReadRows(schema, t, f)
  }

  /** What is asked of the library's own formats: no separators, no quote in
      front, and their readers undo them. */
  ghost predicate Readable(f: Formats) {
    && (forall b {:trigger f.double(b)} :: |b| == 8 && !IsNaN(b) ==>
        PlainText(f.double(b)) && f.readDouble(f.double(b)) == Some(b))
    && (forall n {:trigger f.date(n)} :: PlainText(f.date(n)) && f.readDate(f.date(n)) == Some(n))
    && (forall n {:trigger f.dateTime(n)} :: PlainText(f.dateTime(n)) && f.readDateTime(f.dateTime(n)) == Some(n))
  }

  /** The values whose text can be read: TIME values are narrowed to 32 bits of
      seconds on their way out. */
  predicate ShortTime(ctype: ColumnType, v: Value) {
    ctype.Time? && v.IntValue? ==> -0x8000_0000 * MICROS < v.num < 0x8000_0000 * MICROS
  }

  lemma ValueBack(ctype: ColumnType, v: Value, f: Formats)
    requires ValueOk(ctype, v) && Readable(f)
    ensures Spells(CellText(ctype, v, f), TokenOf(ctype, v, f))
    ensures ReadValue(ctype, TokenOf(ctype, v, f), f) == Some(v) <==> ShortTime(ctype, v)
  {
    hide Layout, FromTimeCAS, TimeNumber, ParseInt, DecInt, Quoted;
    if v.IntValue? {
      match ctype {
        case Time =>
          TimeIsPlain(v.num);
          NumberRoundTrip(v.num);
        case Date =>
          assert PlainText(f.date(v.num));
        case DateTime =>
          assert PlainText(f.dateTime(v.num));
        case Int64 =>
          IntIsPlain(v.num);
          IntBack(v.num);
        case Int32 =>
          IntIsPlain(v.num);
          IntBack(v.num);
        case _ =>
      }
    } else if v.DoubleValue? {
      assert PlainText(f.double(v.bytes));
    } else if v.Text? {
      assert ToBytes(v.bytes).Some? && ToBytes(v.bytes).value == v.bytes;
    }
  }

  lemma IntIsPlain(v: int)
    ensures PlainText(DecInt(v))
  {
    var s := Dec(if v < 0 then -v else v);
    assert forall i :: 0 <= i < |s| ==> IsDigit(s[i]);
  }

  lemma TimeIsPlain(v: int)
    ensures PlainText(FromTimeCAS(v))
  {
    hide Dec, Padded, Div60, Mod60, ToInt32;
    var absTime := if v < 0 then -v else v;
    var totalSeconds := absTime / MICROS;
    var totalMinutes := Div60(ToInt32(totalSeconds));
    LayoutIsPlain(v < 0, Div60(totalMinutes), Mod60(totalMinutes), totalSeconds % 60, absTime % MICROS);
  }

  lemma LayoutIsPlain(neg: bool, h: int, m: int, s: nat, us: nat)
    ensures PlainText(Layout(neg, h, m, s, us))
  {
    hide Dec, Padded;
    var text := Layout(neg, h, m, s, us);
    var sign := if neg then "-" else "";
    IntIsPlain(h);
    IntIsPlain(m);
    assert text[0] == if neg then '-' else DecInt(h)[0];
    var secs, micros := Dec(s), Padded(us, 6);
    assert forall i :: 0 <= i < |secs| ==> IsDigit(secs[i]);
    assert forall i :: 0 <= i < |micros| ==> IsDigit(micros[i]);
    assert forall c :: c in text ==> !IsBreak(c);
    assert ':' in text;
  }

  function TokensOf(schema: seq<Column>, values: seq<Value>, f: Formats): (r: seq<Token>)
    requires ValuesOk(schema, values)
    ensures |r| == |schema| && forall i :: 0 <= i < |r| ==> r[i] == TokenOf(schema[i].ctype, values[i], f)
  {
    seq(|schema|, i requires 0 <= i < |schema| => TokenOf(schema[i].ctype, values[i], f))
  }

  predicate ShortTimes(schema: seq<Column>, values: seq<Value>) {
    |values| == |schema| && forall i :: 0 <= i < |schema| ==> ShortTime(schema[i].ctype, values[i])
  }

  lemma {:induction false} RowDecodes(schema: seq<Column>, values: seq<Value>, f: Formats)
    requires ValuesOk(schema, values) && Readable(f)
    ensures ReadRow(schema, TokensOf(schema, values, f), f) == Some(values) <==> ShortTimes(schema, values)
  {
    hide ReadValue, TokenOf, CellText, ValueOk, ShortTime, Readable;
    if schema != [] {
      ValueBack(schema[0].ctype, values[0], f);
      RowDecodes(schema[1..], values[1..], f);
      assert TokensOf(schema, values, f)[1..] == TokensOf(schema[1..], values[1..], f);
      assert values == [values[0]] + values[1..];
    }
  }

  lemma {:induction false} RowsDecode(schema: seq<Column>, table: seq<seq<Value>>, tokens: seq<seq<Token>>, f: Formats)
    requires TableOk(schema, table) && Readable(f)
    requires |tokens| == |table| && forall r :: 0 <= r < |table| ==> tokens[r] == TokensOf(schema, table[r], f)
    ensures ReadRows(schema, tokens, f) == Some(table) <==>
        forall r :: 0 <= r < |table| ==> ShortTimes(schema, table[r])
    decreases |table|
  {
    hide ReadRow, Readable, ValuesOk, ShortTimes;
    if table != [] {
      RowDecodes(schema, table[0], f);
      RowsDecode(schema, table[1..], tokens[1..], f);
      assert table == [table[0]] + table[1..];
      assert (forall r :: 0 <= r < |table| ==> ShortTimes(schema, table[r]))
             <==> ShortTimes(schema, table[0]) && forall r :: 0 <= r < |table[1..]| ==>
                 ShortTimes(schema, table[1..][r]) by {
        assert forall r :: 1 <= r < |table| ==> table[r] == table[1..][r - 1];
      }
    }
  }

  /** The text of a table of at least one column is read back as that table,
      whatever bytes its values hold, exactly when its times are short enough
      to be printed. */
  lemma TsvRoundTrip(schema: seq<Column>, table: seq<seq<Value>>, f: Formats)
    requires schema != [] && TableOk(schema, table) && Readable(f)
    ensures Read(schema, TableText(schema, table, f), f) == Some(table)
            <==> forall r :: 0 <= r < |table| ==> ShortTimes(schema, table[r])
  {
    hide ReadTable, ReadRows, Readable, CellText, TokenOf, ShortTimes;
    if table != [] {
      var rows := seq(|table|, r requires 0 <= r < |table| => CellTexts(schema, table[r], f));
      var tokens := seq(|table|, r requires 0 <= r < |table| => TokensOf(schema, table[r], f));
      forall r | 0 <= r < |table| ensures rows[r] != [] && RowSpells(rows[r], tokens[r]) {
        forall i | 0 <= i < |schema| ensures Spells(rows[r][i], tokens[r][i]) {
          ValueBack(schema[i].ctype, table[r][i], f);
        }
      }
      TableBack(rows, tokens, RowTexts(schema, table, f));
      RowsDecode(schema, table, tokens, f);
      assert Spells(rows[0][0], tokens[0][0]);
      NotEmpty(TableText(schema, table, f), tokens, rows[0][0]);
    }
  }

  lemma NotEmpty(s: string, tokens: seq<seq<Token>>, text: string)
    requires ReadTable(s) == Some(tokens) && tokens != [] && tokens[0] != [] && Spells(text, tokens[0][0])
    ensures s != ""
  {
    var none := "";
    assert ReadCell(none) == Some((Plain(""), ""));
    assert ReadTable(none) == Some([[Plain("")]]);
  }
}
