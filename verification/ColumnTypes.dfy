/** What a plan's text says about a column, in words: how the beginning of its
    type decides the column's type and size. */
module ColumnTypes {
  import opened Records
  import opened TextSearch
  import opened Identifiers
  import opened Explain

  /** s begins with the lower-case word, in whatever case. */
  predicate Begins(s: string, word: string) {
    && |word| <= |s|
    && forall i :: 0 <= i < |word| ==>
      s[i] == word[i] || ('A' <= s[i] <= 'Z' && s[i] as int + 32 == word[i] as int)
  }

  predicate BeginsAsText(s: string) {
    || Begins(s, "varchar") || Begins(s, "varbinary") || Begins(s, "longtext") || Begins(s, "longblob")
    || Begins(s, "mediumblob") || Begins(s, "blob") || Begins(s, "tinyblob") || Begins(s, "mediumtext")
    || Begins(s, "text") || Begins(s, "tinytext")
  }

  /** A type of one word is read as this column type and size. */
  predicate WordMeans(s: string, ctype: ColumnType, size: nat) {
    && (Begins(s, "bigint") ==> ctype == Int64 && size == 8)
    && (Begins(s, "int") ==> ctype == Int32 && size == 4)
    && (Begins(s, "double") ==> ctype == Double && size == 8)
    && (Begins(s, "datetime") ==> ctype == DateTime && size == 8)
    && (Begins(s, "date") && !Begins(s[4..], "time") ==> ctype == Date && size == 4)
    && (Begins(s, "time") ==> ctype == Time && size == 8)
    && (BeginsAsText(s) ==> ctype == Variable && size == 0)
    && (Begins(s, "bigint") || Begins(s, "int") || Begins(s, "double") || Begins(s, "date") || Begins(s, "time")
        || BeginsAsText(s) || ctype == Unsupported)
  }

  /** The wide character set is named somewhere in s. */
  ghost predicate NamesWide(s: string) {
    exists j :: 0 <= j <= |s| && Begins(s[j..], "utf8mb4")
  }

  /** The column a definition means, its characters being wide or not: the name
      with its backticks still doubled, BINARY(n) with n bytes, CHAR(n) with four
      or three bytes to a character, and any other type by its first word. */
  predicate Means(d: ColumnDef, wide: bool, info: ColumnInfo) {
    && info.name == Doubled(d.name)
    && match d.ctype
       case Sized(word, n) =>
         && info.ctype == Fixed
         && (Begins(word, "binary") ==> info.size == n)
         && (Begins(word, "char") ==> info.size == if wide then 4 * n else 3 * n)
       case Bare(text) => WordMeans(text, info.ctype, info.size)
  }

  predicate IsLower(word: string) {
    forall i :: 0 <= i < |word| ==> !('A' <= word[i] <= 'Z')
  }

  lemma BeginsLower(s: string, word: string)
    requires IsLower(word)
    ensures Begins(s, word) <==> word <= Lower(s)
  {
    if Begins(s, word) {
      assert forall i :: 0 <= i < |word| ==> Lower(s)[i] == LowerChar(s[i]) == word[i];
    }
  }

  lemma WideIsNamed(s: string)
    ensures NamesWide(s) <==> Occurs(WIDE, Lower(s))
  {
    var l := Lower(s);
    forall j | 0 <= j <= |s| ensures Begins(s[j..], "utf8mb4") <==> At(l, WIDE, j) {
      BeginsLower(s[j..], "utf8mb4");
      assert Lower(s[j..]) == l[j..];
      assert j + 7 <= |s| ==> l[j..][..7] == l[j..j + 7];
    }
    if Occurs(WIDE, l) {
      var j :| At(l, WIDE, j);
      assert Begins(s[j..], "utf8mb4");
    }
  }

  /** No two words begin alike, but for "date" and "datetime". */
  lemma WordsDiffer(t: string)
    ensures "int" <= t ==> !("bigint" <= t)
    ensures "double" <= t ==> !("bigint" <= t) && !("int" <= t)
    ensures "date" <= t ==> !("bigint" <= t) && !("int" <= t) && !("double" <= t)
    ensures "time" <= t ==> !("bigint" <= t) && !("int" <= t) && !("double" <= t) && !("date" <= t)
    ensures "datetime" <= t <==> "date" <= t && "time" <= t[4..]
  {
    assert "bigint" <= t ==> t[0] == 'b';
    assert "int" <= t ==> t[0] == 'i';
    assert "double" <= t ==> t[0] == 'd' && t[1] == 'o';
    assert "date" <= t ==> t[0] == 'd' && t[1] == 'a';
    assert "time" <= t ==> t[0] == 't';
    if "date" <= t && "time" <= t[4..] {
      assert forall i :: 4 <= i < 8 ==> t[i] == t[4..][i - 4];
    }
    if "datetime" <= t {
      assert t[4..][..4] == t[4..8];
    }
  }

  lemma TextsDiffer(t: string)
    ensures IsText(t) ==> !("bigint" <= t) && !("int" <= t) && !("double" <= t) && !("date" <= t) && !("time" <= t)
  {
    assert "bigint" <= t ==> t[0] == 'b' && t[1] == 'i';
    assert "int" <= t ==> t[0] == 'i';
    assert "double" <= t || "date" <= t ==> t[0] == 'd';
    assert "time" <= t ==> t[0] == 't' && t[1] == 'i' && t[2] == 'm';
    assert "tinyblob" <= t || "tinytext" <= t ==> t[0] == 't' && t[1] == 'i' && t[2] == 'n';
    assert "text" <= t ==> t[0] == 't' && t[1] == 'e';
    assert "varchar" <= t || "varbinary" <= t ==> t[0] == 'v';
    assert "longtext" <= t || "longblob" <= t ==> t[0] == 'l';
    assert "mediumtext" <= t || "mediumblob" <= t ==> t[0] == 'm';
    assert "blob" <= t ==> t[0] == 'b' && t[1] == 'l';
  }

  lemma LowerWords(s: string)
    ensures Begins(s, "bigint") <==> "bigint" <= Lower(s)
    ensures Begins(s, "int") <==> "int" <= Lower(s)
    ensures Begins(s, "double") <==> "double" <= Lower(s)
    ensures Begins(s, "datetime") <==> "datetime" <= Lower(s)
    ensures Begins(s, "date") <==> "date" <= Lower(s)
    ensures Begins(s, "time") <==> "time" <= Lower(s)
    ensures Begins(s, "date") ==> (Begins(s[4..], "time") <==> "time" <= Lower(s)[4..])
  {
    hide Begins, Lower;
    BeginsLower(s, "bigint");
    BeginsLower(s, "int");
    BeginsLower(s, "double");
    BeginsLower(s, "datetime");
    BeginsLower(s, "date");
    BeginsLower(s, "time");
    if |s| >= 4 {
      BeginsLower(s[4..], "time");
      assert Lower(s[4..]) == Lower(s)[4..];
    }
  }

  lemma LowerTextWords(s: string)
    ensures BeginsAsText(s) <==> IsText(Lower(s))
  {
    hide Begins, Lower;
    BeginsLower(s, "varchar");
    BeginsLower(s, "varbinary");
    BeginsLower(s, "longtext");
    BeginsLower(s, "longblob");
    BeginsLower(s, "mediumblob");
    BeginsLower(s, "blob");
    BeginsLower(s, "tinyblob");
    BeginsLower(s, "mediumtext");
    BeginsLower(s, "text");
    BeginsLower(s, "tinytext");
  }

  lemma WordIsRead(s: string)
    requires !("binary" <= Lower(s)) && !("char" <= Lower(s))
    ensures WordMeans(s, TypeOf(Lower(s)), ScalarSize(TypeOf(Lower(s))))
  {
    hide Begins, Lower, BeginsAsText, IsText;
    LowerWords(s);
    LowerTextWords(s);
    WordsDiffer(Lower(s));
    TextsDiffer(Lower(s));
  }

  /** The scan reads each column as what its definition means. */
  lemma ReadMeans(p: Plan, i: nat)
    requires i < |p.defs| && DefOk(p.defs[i])
    ensures var behind := i + 1 == |p.defs| && ',' in p.post && NamesWide(BeforeComma(p.post));
            Means(p.defs[i], NamesWide(p.defs[i].charset) || behind, InfoIn(p, i))
  {
    hide NamesWide, Occurs, Lower, Begins, WordMeans, TypeOf, ScalarSize, Doubled;
    var d := p.defs[i];
    WideIsNamed(d.charset);
    WideIsNamed(BeforeComma(p.post));
    match d.ctype {
      case Sized(word, n) =>
        BeginsLower(word, "binary");
        BeginsLower(word, "char");
        assert !("char" <= "binary") by {
          assert "binary"[0] != "char"[0];
        }
      case Bare(text) =>
        WordIsRead(text);
    }
  }
}
