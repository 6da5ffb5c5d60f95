/** Lists of column names as they are spelled in a query, and why no two lists
    are spelled alike. */
module Identifiers {
  import opened Prelude
  import opened Joined

  /** std::quoted with '`' both around the name and as its own escape. */
  function QuotedName(name: string): string {
    "`" + Doubled(name) + "`"
  }

  function Doubled(name: string): string {
    if name == "" then ""
    else (if name[0] == '`' then "``" else [name[0]]) + Doubled(name[1..])
  }

  function QuotedNames(names: seq<string>): (r: seq<string>)
    ensures |r| == |names| && forall i :: 0 <= i < |r| ==> r[i] == QuotedName(names[i])
  {
    seq(|names|, i requires 0 <= i < |names| => QuotedName(names[i]))
  }

  function Spelled(names: seq<string>): string {
    Join(QuotedNames(names), ",")
  }

  method JoinColumnNames(cols: seq<string>) returns (result: string)
    ensures result == Spelled(cols)
  {
    if |cols| <= 0 {
      return "";
    }
    result := "" + QuotedName(cols[0]);
    var i := 1;
    ghost var quoted := QuotedNames(cols);
    while i < |cols|
      invariant 1 <= i <= |cols| && result == Join(quoted[..i], ",")
    {
      JoinSnoc(quoted[..i], quoted[i], ",");
      assert quoted[..i + 1] == quoted[..i] + [quoted[i]];
      result := result + ",";
      result := result + QuotedName(cols[i]);
      i := i + 1;
    }
    assert quoted[..i] == quoted;
  }

  /** The order columns, and the key column behind them unless it is one of them. */
  method BuildSortKey(partitionOrderByCols: seq<string>, keyColumnName: string) returns (result: string)
    ensures result == Spelled(if keyColumnName in partitionOrderByCols then partitionOrderByCols
                              else partitionOrderByCols + [keyColumnName])
  {
    hide QuotedName, Join;
    result := JoinColumnNames(partitionOrderByCols);
    var needAddKey := true;
    var i := 0;
    while i < |partitionOrderByCols|
      invariant 0 <= i <= |partitionOrderByCols| && needAddKey
      invariant keyColumnName !in partitionOrderByCols[..i]
    {
      if keyColumnName == partitionOrderByCols[i] {
        needAddKey := false;
        break;
      }
      i := i + 1;
    }
    SpelledEmpty(partitionOrderByCols);
    if needAddKey {
      JoinSnoc(QuotedNames(partitionOrderByCols), QuotedName(keyColumnName), ",");
      assert QuotedNames(partitionOrderByCols + [keyColumnName]) ==
             QuotedNames(partitionOrderByCols) + [QuotedName(keyColumnName)];
      if |result| > 0 {
        result := result + ",";
      }
      result := result + QuotedName(keyColumnName);
    }
  }

  lemma SpelledEmpty(names: seq<string>)
    ensures Spelled(names) == "" <==> names == []
  {
    if names != [] {
      assert QuotedNames(names)[0] == QuotedName(names[0]) != "";
    }
  }

  // ------------------------------------------------------------------
  // Reading a list back
  // ------------------------------------------------------------------

  /** The name up to its closing backtick, and what follows. */
  function ReadName(s: string): Option<(string, string)> {
    if s == "" then None
    else if s[0] != '`' then
      match ReadName(s[1..]) case None => None case Some(p) => Some(([s[0]] + p.0, p.1))
    else if |s| > 1 && s[1] == '`' then
      match ReadName(s[2..]) case None => None case Some(p) => Some((['`'] + p.0, p.1))
    else Some(("", s[1..]))
  }

  lemma {:induction false} ReadNameShrinks(s: string)
    ensures ReadName(s).Some? ==> |ReadName(s).value.1| < |s|
  {
    if s != "" {
      if s[0] != '`' {
        ReadNameShrinks(s[1..]);
      } else if |s| > 1 && s[1] == '`' {
        ReadNameShrinks(s[2..]);
      }
    }
  }

  function ParseNames(s: string): Option<seq<string>>
    decreases |s|
  {
    if s == "" || s[0] != '`' then None
    else
      ReadNameShrinks(s[1..]);
      match ReadName(s[1..])
      case None => None
      case Some(p) =>
        if p.1 == "" then Some([p.0])
        else if p.1[0] != ',' then None
        else match ParseNames(p.1[1..]) case None => None case Some(rest) => Some([p.0] + rest)
  }

  lemma {:induction false} NameBack(name: string, rest: string)
    requires rest == "" || rest[0] != '`'
    ensures ReadName(Doubled(name) + "`" + rest) == Some((name, rest))
  {
    var text := Doubled(name) + "`" + rest;
    if name == "" {
      assert text == "`" + rest;
    } else {
      NameBack(name[1..], rest);
      assert name == [name[0]] + name[1..];
      var tail := Doubled(name[1..]) + "`" + rest;
      if name[0] == '`' {
        assert text == "``" + tail && text[2..] == tail;
      } else {
        assert text == [name[0]] + tail && text[1..] == tail;
      }
    }
  }

  /** Whatever the names hold - backticks, commas, anything - a list of them is
      read back as it was. */
  lemma {:induction false} NamesBack(names: seq<string>)
    requires names != []
    ensures ParseNames(Spelled(names)) == Some(names)
    decreases |names|
  {
    var text := Spelled(names);
    var quoted := QuotedNames(names);
    assert quoted[1..] == QuotedNames(names[1..]);
    assert names == [names[0]] + names[1..];
    if |names| == 1 {
      NameBack(names[0], "");
      assert [names[0]] == names;
      assert text[1..] == Doubled(names[0]) + "`" + "";
    } else {
      var more := "," + Spelled(names[1..]);
      NamesBack(names[1..]);
      NameBack(names[0], more);
      assert text == quoted[0] + more;
      assert text[1..] == Doubled(names[0]) + "`" + more;
      assert more[1..] == Spelled(names[1..]);
    }
  }

  /** The sort key reads as the order columns followed by the key column exactly
      when the key column is not one of them, and as the order columns alone
      exactly when it is. */
  lemma SortKeyBack(order: seq<string>, key: string, text: string)
    requires text == Spelled(if key in order then order else order + [key])
    ensures ParseNames(text) == Some(order + [key]) <==> key !in order
    ensures ParseNames(text) == Some(order) <==> key in order
  {
    NamesBack(if key in order then order else order + [key]);
    assert |order + [key]| == |order| + 1;
  }
}
