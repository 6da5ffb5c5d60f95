/** When a query may read the original table instead of a result table, and what
    that keeps of the partitioning and of the order that were asked for. */
module ReadPlan {
  import opened Prelude
  import opened Decimal
  import opened Identifiers
  import opened QueryText

  datatype ParallelReadType = ReadTypeUnknown | ReadTypeResultTable | ReadTypeColumnStoreTable | ReadTypeOriginalTable

  datatype TableKeys = TableKeys(shard_key: seq<string>, sort_key: seq<string>)

  function FirstWord(s: string): string {
    if s == "" || s[0] == ' ' then "" else [s[0]] + FirstWord(s[1..])
  }

  predicate IsScan(op: string) {
    op == "ColumnStoreScan" || op == "OrderedColumnStoreScan" || op == "ColumnStoreFilter"
  }

  /** The row is this word, or begins with it and a space. */
  predicate LedBy(row: string, word: string) {
    row == word || word + " " <= row
  }

  lemma {:induction false} FirstWordLeads(row: string, word: string)
    requires ' ' !in word
    ensures FirstWord(row) == word <==> LedBy(row, word)
    decreases |row|
  {
    if row == "" || row[0] == ' ' {
      assert word != "" ==> word[0] != ' ';
    } else if word != "" {
      FirstWordLeads(row[1..], word[1..]);
      assert row == [row[0]] + row[1..] && word == [word[0]] + word[1..];
      assert word + " " == [word[0]] + (word[1..] + " ");
    } else {
      assert row[0] != ' ';
    }
  }

  /** Everything below the first ResultTable row is a scan or a filter of a
      column store. */
  ghost predicate OnlyScansBelow(rows: seq<string>) {
    forall i, j :: 0 <= i < j < |rows| && "ResultTable" <= rows[i] ==>
      || LedBy(rows[j], "ColumnStoreScan")
      || LedBy(rows[j], "OrderedColumnStoreScan")
      || LedBy(rows[j], "ColumnStoreFilter")
  }

  /** The plan's operations are looked at from below the first ResultTable row on. */
  method CheckExplainOperations(rows: seq<string>) returns (r: bool)
    ensures r <==> OnlyScansBelow(rows)
  {
    hide FirstWord, LedBy;
    var checkOperation := false;
    var k := 0;
    while k < |rows|
      invariant 0 <= k <= |rows|
      invariant checkOperation <==> exists i :: 0 <= i < k && "ResultTable" <= rows[i]
      invariant OnlyScansBelow(rows[..k])
    {
      if checkOperation {
        var op := FirstWord(rows[k]);
        FirstWordLeads(rows[k], "ColumnStoreScan");
        FirstWordLeads(rows[k], "OrderedColumnStoreScan");
        FirstWordLeads(rows[k], "ColumnStoreFilter");
        if !IsScan(op) {
          assert OnlyScansBelow(rows) ==> false;
          return false;
        }
      }
      if "ResultTable" <= rows[k] {
        checkOperation := true;
      }
      k := k + 1;
    }
    assert rows[..k] == rows;
    return true;
  }

  method GetParallelReadType(
      hasSourceTable: bool, tableKeys: TableKeys, explainRows: seq<string>, materialized: bool,
      partitionByCols: seq<string>, partitionOrderByCols: seq<string>, readType: ParallelReadType)
    returns (r: ParallelReadType)
    ensures readType != ReadTypeUnknown ==> r == readType
    ensures r != ReadTypeUnknown
    ensures readType == ReadTypeUnknown ==>
              (r == ReadTypeOriginalTable <==>
                && hasSourceTable && OnlyScansBelow(explainRows)
                && KeepsGroups(tableKeys.shard_key, partitionByCols) && partitionOrderByCols <= tableKeys.sort_key)
    ensures readType == ReadTypeUnknown && NoRepeats(partitionOrderByCols) && NoRepeats(tableKeys.sort_key) ==>
              (r == ReadTypeOriginalTable <==>
                && hasSourceTable && OnlyScansBelow(explainRows)
                && KeepsGroups(tableKeys.shard_key, partitionByCols)
                && KeepsOrder(tableKeys.sort_key, partitionOrderByCols))
    ensures readType == ReadTypeUnknown && r != ReadTypeOriginalTable ==>
        (r == ReadTypeColumnStoreTable <==> materialized)
  {
    hide KeepsGroups, KeepsOrder, OnlyScansBelow;
    GroupsKeptExactly(tableKeys.shard_key, partitionByCols);
    PrefixKeepsOrder(tableKeys.sort_key, partitionOrderByCols);
    if readType != ReadTypeUnknown {
      return readType;
    }
    if !hasSourceTable {
      if materialized {
        return ReadTypeColumnStoreTable;
      }
      return ReadTypeResultTable;
    }
    var isColumnstoreScanOk := true;
    if |partitionByCols| > 0 {
      if |tableKeys.shard_key| == 0 {
        isColumnstoreScanOk := false;
      } else {
        var partitionByColSet: set<string> := {};
        var i := 0;
        while i < |partitionByCols|
          invariant 0 <= i <= |partitionByCols|
          invariant forall c :: c in partitionByColSet <==> c in partitionByCols[..i]
        {
          partitionByColSet := partitionByColSet + {partitionByCols[i]};
          i := i + 1;
        }
        assert partitionByCols[..i] == partitionByCols;
        var k := 0;
        while k < |tableKeys.shard_key|
          invariant 0 <= k <= |tableKeys.shard_key| && isColumnstoreScanOk
          invariant forall c :: c in tableKeys.shard_key[..k] ==> c in partitionByCols
        {
          if tableKeys.shard_key[k] !in partitionByColSet {
            assert tableKeys.shard_key[k] in tableKeys.shard_key;
            isColumnstoreScanOk := false;
            break;
          }
          k := k + 1;
        }
        assert tableKeys.shard_key[..|tableKeys.shard_key|] == tableKeys.shard_key;
        assert isColumnstoreScanOk <==> forall c :: c in tableKeys.shard_key ==> c in partitionByCols;
      }
    }
    ghost var shardOk := isColumnstoreScanOk;
    assert shardOk <==> KeepsGroups(tableKeys.shard_key, partitionByCols);
    if |partitionOrderByCols| > |tableKeys.sort_key| {
      isColumnstoreScanOk := false;
    } else {
      var i := 0;
      while i < |partitionOrderByCols|
        invariant 0 <= i <= |partitionOrderByCols| && isColumnstoreScanOk == shardOk
        invariant partitionOrderByCols[..i] == tableKeys.sort_key[..i]
      {
        if tableKeys.sort_key[i] != partitionOrderByCols[i] {
          isColumnstoreScanOk := false;
          break;
        }
        i := i + 1;
      }
    }
    assert isColumnstoreScanOk <==> shardOk && partitionOrderByCols <= tableKeys.sort_key;
    var isSelectSimple := CheckExplainOperations(explainRows);
    if isColumnstoreScanOk && isSelectSimple {
      return ReadTypeOriginalTable;
    }
    if materialized {
      return ReadTypeColumnStoreTable;
    }
    return ReadTypeResultTable;
  }

  /** The query of one partition's reader on the original table.  The multi-pass
      queue passes the table's full sort key, the streaming queue nothing. */
  method MakeReadOriginalTableQuery(
      query: string, columnstoreFullSortKey: Option<seq<string>>, partitionOrderByCols: seq<string>, partition: nat)
    returns (resultQuery: string)
    ensures ReadQuery(resultQuery) == Some(PartitionRead(query, partition,
        if columnstoreFullSortKey.Some? && columnstoreFullSortKey.value != [] then columnstoreFullSortKey.value
        else partitionOrderByCols))
  {
    hide Spelled, ReadQuery, Dec;
    resultQuery := "SELECT * FROM (" + query + ")";
    resultQuery := resultQuery + (" WHERE partition_id() = " + Dec(partition));
    ghost var rows := resultQuery;
    if columnstoreFullSortKey.Some? && |columnstoreFullSortKey.value| > 0 {
      QueryBack(rows, query, partition, columnstoreFullSortKey.value);
      var names := JoinColumnNames(columnstoreFullSortKey.value);
      resultQuery := resultQuery + (" ORDER BY " + names);
    } else {
      QueryBack(rows, query, partition, partitionOrderByCols);
      if |partitionOrderByCols| > 0 {
        var names := JoinColumnNames(partitionOrderByCols);
        resultQuery := resultQuery + (" ORDER BY " + names);
      }
    }
  }

  // ------------------------------------------------------------------
  // What the check of the shard key is for
  // ------------------------------------------------------------------

  /** A row's values by column, ranked in the order the database sorts them. */
  type Tuple = string -> int

  /** A row of a table: rows may be alike and still be two. */
  datatype TableRow = TableRow(id: nat, values: Tuple)

  ghost predicate EqualOn(a: Tuple, b: Tuple, cols: seq<string>) {
    forall c :: c in cols ==> a(c) == b(c)
  }

  /** The partitions in which a table may keep its rows: with a shard key, rows
      alike on it share one; without a shard key, a row may be anywhere. */
  ghost predicate Allowed(shardKey: seq<string>, place: TableRow -> int) {
    shardKey != [] ==> Together(shardKey, place)
  }

  /** Rows alike on the columns share a partition. */
  ghost predicate Together(cols: seq<string>, place: TableRow -> int) {
    forall a: TableRow, b: TableRow {:trigger place(a), place(b)} ::
      EqualOn(a.values, b.values, cols) ==> place(a) == place(b)
  }

  /** Reading the table partition by partition keeps the groups that were asked
      for, if any were, wherever the table may keep its rows. */
  ghost predicate KeepsGroups(shardKey: seq<string>, partitionBy: seq<string>) {
    partitionBy != [] ==> forall place: TableRow -> int :: Allowed(shardKey, place) ==> Together(partitionBy, place)
  }

  /** Exactly when there is a shard key and it is part of the partition-by columns. */
  lemma GroupsKeptExactly(shardKey: seq<string>, partitionBy: seq<string>)
    ensures KeepsGroups(shardKey, partitionBy) <==>
            partitionBy == [] || (shardKey != [] && forall c :: c in shardKey ==> c in partitionBy)
  {
    if partitionBy != [] {
      if shardKey == [] {
        var place := (r: TableRow) => r.id as int;
        var values: Tuple := c => 0;
        assert place(TableRow(0, values)) != place(TableRow(1, values));
        assert Allowed(shardKey, place) && !Together(partitionBy, place);
      } else if col :| col in shardKey && col !in partitionBy {
        var place := (r: TableRow) => r.values(col);
        var a: Tuple := c => 0;
        var b: Tuple := c => if c == col then 1 else 0;
        assert EqualOn(a, b, partitionBy) && place(TableRow(0, a)) != place(TableRow(0, b));
        assert Allowed(shardKey, place) && !Together(partitionBy, place);
      } else {
        forall place: TableRow -> int | Allowed(shardKey, place) ensures Together(partitionBy, place) {
          WithinTogether(shardKey, partitionBy, place);
        }
      }
    }
  }

  lemma WithinTogether(shardKey: seq<string>, partitionBy: seq<string>, place: TableRow -> int)
    requires Together(shardKey, place) && forall c :: c in shardKey ==> c in partitionBy
    ensures Together(partitionBy, place)
  {
    forall a: TableRow, b: TableRow | EqualOn(a.values, b.values, partitionBy) ensures place(a) == place(b) {
      assert EqualOn(a.values, b.values, shardKey);
    }
  }

  // ------------------------------------------------------------------
  // What the check of the sort key is for
  // ------------------------------------------------------------------

  predicate LexLeq(a: Tuple, b: Tuple, cols: seq<string>) {
    cols == [] || a(cols[0]) < b(cols[0]) || (a(cols[0]) == b(cols[0]) && LexLeq(a, b, cols[1..]))
  }

  ghost predicate SortedBy(rows: seq<Tuple>, cols: seq<string>) {
    forall i, j :: 0 <= i < j < |rows| ==> LexLeq(rows[i], rows[j], cols)
  }

  /** Rows in the order of the sort key are in the order that was asked for,
      whatever they hold. */
  ghost predicate KeepsOrder(sortKey: seq<string>, orderBy: seq<string>) {
    forall rows: seq<Tuple> :: SortedBy(rows, sortKey) ==> SortedBy(rows, orderBy)
  }

  predicate NoRepeats(cols: seq<string>) {
    forall i, j :: 0 <= i < j < |cols| ==> cols[i] != cols[j]
  }

  function Without(cols: seq<string>, c: string): (r: seq<string>)
    ensures |r| <= |cols| && c !in r && forall d :: d in r ==> d in cols
  {
    if cols == [] then []
    else if cols[0] == c then Without(cols[1..], c)
    else [cols[0]] + Without(cols[1..], c)
  }

  /** The columns, each where it occurs first. */
  function Firsts(cols: seq<string>): seq<string>
    decreases |cols|
  {
    if cols == [] then [] else [cols[0]] + Firsts(Without(cols[1..], cols[0]))
  }

  lemma {:induction false} LexWithout(a: Tuple, b: Tuple, cols: seq<string>, c: string)
    requires a(c) == b(c)
    ensures LexLeq(a, b, Without(cols, c)) <==> LexLeq(a, b, cols)
  {
    if cols != [] {
      LexWithout(a, b, cols[1..], c);
    }
  }

  /** A column's later occurrences decide nothing. */
  lemma {:induction false} LexFirsts(a: Tuple, b: Tuple, cols: seq<string>)
    ensures LexLeq(a, b, Firsts(cols)) <==> LexLeq(a, b, cols)
    decreases |cols|
  {
    if cols != [] {
      var rest := Without(cols[1..], cols[0]);
      LexFirsts(a, b, rest);
      assert Firsts(cols)[1..] == Firsts(rest);
      if a(cols[0]) == b(cols[0]) {
        LexWithout(a, b, cols[1..], cols[0]);
      }
    }
  }

  lemma {:induction false} WithoutNothing(cols: seq<string>, c: string)
    requires c !in cols
    ensures Without(cols, c) == cols
  {
    if cols != [] {
      WithoutNothing(cols[1..], c);
    }
  }

  lemma {:induction false} FirstsOfDistinct(cols: seq<string>)
    requires NoRepeats(cols)
    ensures Firsts(cols) == cols
    decreases |cols|
  {
    if cols != [] {
      WithoutNothing(cols[1..], cols[0]);
      FirstsOfDistinct(cols[1..]);
    }
  }

  lemma {:induction false} LexPrefix(a: Tuple, b: Tuple, cols: seq<string>, full: seq<string>)
    requires cols <= full && LexLeq(a, b, full)
    ensures LexLeq(a, b, cols)
    decreases |cols|
  {
    if cols != [] && a(cols[0]) == b(cols[0]) {
      LexPrefix(a, b, cols[1..], full[1..]);
    }
  }

  /** Two rows in the one order and not in the other: alike up to the first place
      where the lists part, and parted there. */
  lemma {:induction false} OrdersPart(sort: seq<string>, order: seq<string>) returns (a: Tuple, b: Tuple)
    requires NoRepeats(sort) && NoRepeats(order) && !(order <= sort)
    ensures LexLeq(a, b, sort) && !LexLeq(a, b, order)
    ensures forall c :: a(c) != b(c) ==> c in order || c in sort
    decreases |order|
  {
    if sort != [] && sort[0] == order[0] {
      a, b := OrdersPart(sort[1..], order[1..]);
    } else {
      a := c => if c == order[0] then 1 else 0;
      b := c => if sort != [] && c == sort[0] then 1 else 0;
    }
  }

  lemma {:induction false} FirstsDistinct(cols: seq<string>)
    ensures NoRepeats(Firsts(cols)) && forall c :: c in Firsts(cols) ==> c in cols
    decreases |cols|
  {
    if cols != [] {
      FirstsDistinct(Without(cols[1..], cols[0]));
    }
  }

  /** Exactly when the order columns, each counted once, begin the sort key's. */
  lemma OrderKeptExactly(sortKey: seq<string>, orderBy: seq<string>)
    ensures KeepsOrder(sortKey, orderBy) <==> Firsts(orderBy) <= Firsts(sortKey)
  {
    var sort, order := Firsts(sortKey), Firsts(orderBy);
    if order <= sort {
      forall rows: seq<Tuple>, i, j | SortedBy(rows, sortKey) && 0 <= i < j < |rows|
        ensures LexLeq(rows[i], rows[j], orderBy)
      {
        LexFirsts(rows[i], rows[j], sortKey);
        LexPrefix(rows[i], rows[j], order, sort);
        LexFirsts(rows[i], rows[j], orderBy);
      }
    } else {
      FirstsDistinct(sortKey);
      FirstsDistinct(orderBy);
      var a, b := OrdersPart(sort, order);
      LexFirsts(a, b, sortKey);
      LexFirsts(a, b, orderBy);
      var rows := [a, b];
      assert SortedBy(rows, sortKey);
      assert !LexLeq(rows[0], rows[1], orderBy);
    }
  }

  /** The source compares the lists as they are: what it accepts keeps the order,
      and where no column is listed twice it accepts all that does. */
  lemma PrefixKeepsOrder(sortKey: seq<string>, orderBy: seq<string>)
    ensures orderBy <= sortKey ==> KeepsOrder(sortKey, orderBy)
    ensures NoRepeats(orderBy) && NoRepeats(sortKey) ==> (KeepsOrder(sortKey, orderBy) <==> orderBy <= sortKey)
  {
    if orderBy <= sortKey {
      forall rows: seq<Tuple>, i, j | SortedBy(rows, sortKey) && 0 <= i < j < |rows|
        ensures LexLeq(rows[i], rows[j], orderBy)
      {
        LexPrefix(rows[i], rows[j], orderBy, sortKey);
      }
    }
    if NoRepeats(orderBy) && NoRepeats(sortKey) {
      OrderKeptExactly(sortKey, orderBy);
      FirstsOfDistinct(orderBy);
      FirstsOfDistinct(sortKey);
    }
  }

  /** A column listed twice: the order is kept, and still the source does not
      read the original table. */
  lemma RepeatedColumn()
    ensures KeepsOrder(["a"], ["a", "a"]) && !(["a", "a"] <= ["a"])
  {
    assert Firsts(["a", "a"]) == ["a"] + [] by {
      assert Without(["a"], "a") == [];
    }
    OrderKeptExactly(["a"], ["a", "a"]);
  }

  /** Rows that come in the order a query asks for, read back from its text, are
      in the order that was asked for, whenever the original table was chosen. */
  lemma FastPathKeepsOrder(keys: TableKeys, orderBy: seq<string>, multiPass: bool, text: string, rows: seq<Tuple>)
    requires orderBy <= keys.sort_key && ReadQuery(text).Some?
    requires ReadQuery(text).value.order == if multiPass && keys.sort_key != [] then keys.sort_key else orderBy
    requires SortedBy(rows, ReadQuery(text).value.order)
    ensures SortedBy(rows, orderBy)
  {
    PrefixKeepsOrder(keys.sort_key, orderBy);
  }
}
