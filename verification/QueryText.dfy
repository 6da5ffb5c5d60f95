/** Reading back the query of one partition's reader: from its end, so that the
    query it is built around and the column names may hold anything. */
module QueryText {
  import opened Prelude
  import opened Decimal
  import opened Joined
  import opened Identifiers

  /** The rows of the inner query that lie in one partition, in the order of the
      columns named, or in any order if there are none. */
  datatype PartitionRead = PartitionRead(inner: string, partition: nat, order: seq<string>)

  function Last(s: string): char
    requires s != ""
  {
    s[|s| - 1]
  }

  function Init(s: string): string
    requires s != ""
  {
    s[..|s| - 1]
  }

  /** s without what it must end with. */
  function WithoutEnd(s: string, end: string): Option<string> {
    if |end| <= |s| && s[|s| - |end|..] == end then Some(s[..|s| - |end|]) else None
  }

  /** s, then the digits it ended with. */
  function CutDigits(s: string): (string, string) {
    if s != "" && IsDigit(Last(s))
    then var p := CutDigits(Init(s)); (p.0, p.1 + [Last(s)])
    else (s, "")
  }

  /** What is in front of the opening backtick, and the name behind it. */
  function LastName(s: string): Option<(string, string)> {
    if s == "" then None
    else if Last(s) != '`' then
      match LastName(Init(s)) case None => None case Some(p) => Some((p.0, p.1 + [Last(s)]))
    else if |s| > 1 && s[|s| - 2] == '`' then
      match LastName(s[..|s| - 2]) case None => None case Some(p) => Some((p.0, p.1 + "`"))
    else Some((Init(s), ""))
  }

  lemma {:induction false} LastNameShrinks(s: string)
    ensures LastName(s).Some? ==> |LastName(s).value.0| < |s|
  {
    if s != "" {
      if Last(s) != '`' {
        LastNameShrinks(Init(s));
      } else if |s| > 1 && s[|s| - 2] == '`' {
        LastNameShrinks(s[..|s| - 2]);
      }
    }
  }

  /** What is in front of a list of quoted names, and the names. */
  function LastNames(s: string): Option<(string, seq<string>)>
    decreases |s|
  {
    if s == "" || Last(s) != '`' then None
    else
      LastNameShrinks(Init(s));
      match LastName(Init(s))
      case None => None
      case Some(p) =>
        if p.0 == "" || Last(p.0) != ',' then Some((p.0, [p.1]))
        else match LastNames(Init(p.0)) case None => None case Some(q) => Some((q.0, q.1 + [p.1]))
  }

  function ReadRows(s: string, order: seq<string>): Option<PartitionRead> {
    var p := CutDigits(s);
    match (ParseNat(p.1), WithoutEnd(p.0, ") WHERE partition_id() = "))
    case (Some(n), Some(front)) =>
      if "SELECT * FROM (" <= front then Some(PartitionRead(front[15..], n, order)) else None
    case _ => None
  }

  function ReadQuery(s: string): Option<PartitionRead> {
    if s == "" || Last(s) != '`' then ReadRows(s, [])
    else match LastNames(s)
         case None => None
         case Some(p) =>
           match WithoutEnd(p.0, " ORDER BY ") case None => None case Some(front) => ReadRows(front, p.1)
  }

  // ------------------------------------------------------------------
  // What it reads from a query that has been written
  // ------------------------------------------------------------------

  lemma {:induction false} DoubledLast(name: string, c: char)
    ensures Doubled(name + [c]) == Doubled(name) + if c == '`' then "``" else [c]
  {
    if name == "" {
      assert Doubled([c]) == (if c == '`' then "``" else [c]) + Doubled("");
    } else {
      assert (name + [c])[1..] == name[1..] + [c];
      DoubledLast(name[1..], c);
    }
  }

  lemma {:induction false} LastNameBack(front: string, name: string)
    requires front == "" || Last(front) != '`'
    ensures LastName(front + "`" + Doubled(name)) == Some((front, name))
    decreases |name|
  {
    var s := front + "`" + Doubled(name);
    if name == "" {
      assert s == front + "`" && Init(s) == front;
    } else {
      var init, c := Init(name), Last(name);
      assert name == init + [c];
      DoubledLast(init, c);
      LastNameBack(front, init);
      var t := front + "`" + Doubled(init);
      if c == '`' {
        assert s == t + "``" && s[..|s| - 2] == t;
      } else {
        assert s == t + [c] && Init(s) == t;
      }
    }
  }

  /** The last name of a list is read, and then what is in front of its comma. */
  lemma LastStep(s: string, before: string, name: string)
    requires s == before + "`" + Doubled(name) + "`" && (before == "" || Last(before) != '`')
    ensures before == "" || Last(before) != ',' ==> LastNames(s) == Some((before, [name]))
    ensures before != "" && Last(before) == ',' && LastNames(Init(before)).Some? ==>
              var q := LastNames(Init(before)).value;
              LastNames(s) == Some((q.0, q.1 + [name]))
  {
    hide Doubled, LastName;
    assert Last(s) == '`' && Init(s) == before + "`" + Doubled(name);
    LastNameBack(before, name);
  }

  lemma {:induction false} LastNamesBack(front: string, names: seq<string>)
    requires names != [] && (front == "" || (Last(front) != '`' && Last(front) != ','))
    ensures LastNames(front + Spelled(names)) == Some((front, names))
    decreases |names|
  {
    hide Doubled, LastName, LastNames, Spelled;
    var n := |names| - 1;
    SpelledLast(names);
    if n == 0 {
      assert [names[0]] == names;
      Ticked(front, "", Doubled(names[0]));
      LastStep(front + Spelled(names), front, names[0]);
    } else {
      var init := names[..n];
      var before := front + (Spelled(init) + ",");
      LastNamesBack(front, init);
      Ticked(front, Spelled(init) + ",", Doubled(names[n]));
      assert before == (front + Spelled(init)) + ",";
      assert Init(before) == front + Spelled(init) && Last(before) == ',';
      LastStep(front + Spelled(names), before, names[n]);
      assert init + [names[n]] == names;
    }
  }

  lemma Ticked(front: string, list: string, name: string)
    ensures front + (list + ("`" + name + "`")) == front + list + "`" + name + "`"
  {
  }

  lemma SpelledLast(names: seq<string>)
    requires names != []
    ensures var n := |names| - 1;
            Spelled(names) == (if n == 0 then "" else Spelled(names[..n]) + ",") + ("`" + Doubled(names[n]) + "`")
  {
    hide Doubled;
    var n := |names| - 1;
    assert QuotedNames(names) == QuotedNames(names[..n]) + [QuotedName(names[n])];
    JoinSnoc(QuotedNames(names[..n]), QuotedName(names[n]), ",");
  }

  lemma {:induction false} CutDigitsBack(front: string, digits: string)
    requires Digits(digits) && (front == "" || !IsDigit(Last(front)))
    ensures CutDigits(front + digits) == (front, digits)
    decreases |digits|
  {
    if digits == "" {
      assert front + digits == front;
    } else {
      CutDigitsBack(front, Init(digits));
      assert Init(front + digits) == front + Init(digits);
      assert Init(digits) + [Last(digits)] == digits;
    }
  }

  lemma RowsBack(query: string, partition: nat, order: seq<string>)
    ensures ReadRows("SELECT * FROM (" + query + ") WHERE partition_id() = " + Dec(partition), order)
            == Some(PartitionRead(query, partition, order))
  {
    hide Dec, CutDigits;
    var front := "SELECT * FROM (" + query;
    var head := front + ") WHERE partition_id() = ";
    assert Last(head) == ' ';
    CutDigitsBack(head, Dec(partition));
    DecBack(partition);
    assert WithoutEnd(head, ") WHERE partition_id() = ") == Some(front);
    assert front[15..] == query;
  }

  lemma Assembled(query: string, digits: string)
    ensures "SELECT * FROM (" + query + ")" + (" WHERE partition_id() = " + digits) ==
            "SELECT * FROM (" + query + ") WHERE partition_id() = " + digits
  {
  }

  /** With and without an order, the three parts are recovered. */
  lemma QueryBack(rows: string, query: string, partition: nat, order: seq<string>)
    requires rows == "SELECT * FROM (" + query + ")" + (" WHERE partition_id() = " + Dec(partition))
    ensures ReadQuery(rows) == Some(PartitionRead(query, partition, []))
    ensures order != [] ==> ReadQuery(rows + (" ORDER BY " + Spelled(order))) ==
                            Some(PartitionRead(query, partition, order))
  {
    hide Dec, LastNames, Spelled, ReadRows;
    Assembled(query, Dec(partition));
    RowsBack(query, partition, []);
    assert IsDigit(Last(rows)) by {
      assert Last(rows) == Last(Dec(partition));
    }
    if order != [] {
      RowsBack(query, partition, order);
      var front := rows + " ORDER BY ";
      assert Last(front) == ' ';
      LastNamesBack(front, order);
      assert front + Spelled(order) == rows + (" ORDER BY " + Spelled(order));
      EndsInTick(order);
      assert Last(front + Spelled(order)) == Last(Spelled(order));
      assert WithoutEnd(front, " ORDER BY ") == Some(rows);
    }
  }

  lemma EndsInTick(names: seq<string>)
    requires names != []
    ensures Spelled(names) != "" && Last(Spelled(names)) == '`'
  {
    hide Doubled, Spelled;
    SpelledLast(names);
  }
}
