/** Searching in strings, as the standard string class does it. */
module TextSearch {
  import opened Prelude

  function FindChar(s: string, c: char, from: nat): (r: Option<nat>)
    ensures r.Some? ==> from <= r.value < |s| && s[r.value] == c
    decreases |s| - from
  {
    if from >= |s| then None
    else if s[from] == c then Some(from)
    else FindChar(s, c, from + 1)
  }

  predicate At(s: string, pat: string, j: int) {
    0 <= j <= |s| - |pat| && s[j..j + |pat|] == pat
  }

  function FindText(s: string, pat: string, from: nat): (r: Option<nat>)
    ensures r.Some? ==> from <= r.value && At(s, pat, r.value)
    decreases |s| - from
  {
    if from + |pat| > |s| then None
    else if s[from..from + |pat|] == pat then Some(from)
    else if from == |s| then None
    else FindText(s, pat, from + 1)
  }

  ghost predicate Occurs(pat: string, s: string) {
    exists j :: At(s, pat, j)
  }

  lemma {:induction false} FindTextFinds(s: string, pat: string, from: nat, j: nat)
    requires from <= j && At(s, pat, j) && forall i :: from <= i < j ==> !At(s, pat, i)
    ensures FindText(s, pat, from) == Some(j)
    decreases j - from
  {
    if from < j {
      assert !At(s, pat, from);
      FindTextFinds(s, pat, from + 1, j);
    }
  }

  lemma {:induction false} FindTextFirst(s: string, pat: string, from: nat, j: nat)
    requires from <= j && At(s, pat, j)
    ensures FindText(s, pat, from).Some?
    decreases j - from
  {
    if from < j {
      FindTextFirst(s, pat, from + 1, j);
    }
  }

  lemma OccursIsFound(pat: string, s: string)
    ensures Occurs(pat, s) <==> FindText(s, pat, 0).Some?
  {
    if Occurs(pat, s) {
      var j :| At(s, pat, j);
      FindTextFirst(s, pat, 0, j);
    }
  }

  lemma {:induction false} FindCharFinds(s: string, c: char, from: nat, j: nat)
    requires from <= j < |s| && s[j] == c && forall i :: from <= i < j ==> s[i] != c
    ensures FindChar(s, c, from) == Some(j)
    decreases j - from
  {
    if from < j {
      FindCharFinds(s, c, from + 1, j);
    }
  }

  /** The first c behind a stretch that has none. */
  lemma FindBehind(s: string, from: nat, a: string, c: char, b: string)
    requires from <= |s| && s[from..] == a + [c] + b && c !in a
    ensures FindChar(s, c, from) == Some(from + |a|)
    ensures s[from + |a|..] == [c] + b && s[from..from + |a|] == a
  {
    var rest := a + [c] + b;
    assert forall i :: 0 <= i < |rest| ==> s[from + i] == rest[i];
    assert forall i :: 0 <= i < |a| ==> rest[i] == a[i];
    FindCharFinds(s, c, from, from + |a|);
  }

  lemma {:induction false} FindCharSkips(s: string, c: char, from: nat, to: nat)
    requires from <= to <= |s| && forall i :: from <= i < to ==> s[i] != c
    ensures FindChar(s, c, from) == FindChar(s, c, to)
    decreases |s| - from
  {
    if from < to {
      FindCharSkips(s, c, from + 1, to);
    }
  }

  lemma {:induction false} FindCharNone(s: string, c: char, from: nat)
    requires from <= |s| && c !in s[from..]
    ensures FindChar(s, c, from) == None
    decreases |s| - from
  {
    if from < |s| {
      assert s[from..][0] == s[from] && s[from..][1..] == s[from + 1..];
      FindCharNone(s, c, from + 1);
    }
  }

  lemma AtBegins(s: string, pat: string, j: int)
    ensures At(s, pat, j) && pat != "" ==> s[j] == pat[0]
  {
    if At(s, pat, j) && pat != "" {
      assert s[j] == s[j..j + |pat|][0];
    }
  }

  lemma AllOfPattern(pat: string, s: string, j: int)
    requires At(s, pat, j)
    ensures forall i :: j <= i < j + |pat| ==> s[i] in pat
  {
    forall i | j <= i < j + |pat| ensures s[i] in pat {
      assert pat[i - j] == s[i];
    }
  }

  lemma SliceOfTail(a: string, b: string, lo: nat, hi: nat)
    requires lo <= hi <= |b|
    ensures (a + b)[|a| + lo..|a| + hi] == b[lo..hi]
  {
  }

  lemma SliceOfSlice(s: string, lo: nat, hi: nat, x: nat, y: nat)
    requires lo <= hi <= |s| && x <= y <= hi - lo
    ensures s[lo..hi][x..y] == s[lo + x..lo + y]
  {
    var u, v := s[lo..hi][x..y], s[lo + x..lo + y];
    assert |u| == |v| && forall i :: 0 <= i < |u| ==> u[i] == s[lo..hi][x + i] == v[i];
  }

  /** A pattern without the character c lies on one side of every c. */
  lemma OccursAcross(pat: string, a: string, c: char, b: string)
    requires c !in pat
    ensures Occurs(pat, a + [c] + b) <==> Occurs(pat, a) || Occurs(pat, b)
  {
    var s := a + [c] + b;
    if Occurs(pat, s) {
      var j :| At(s, pat, j);
      AllOfPattern(pat, s, j);
      assert s[|a|] == c;
      if j + |pat| <= |a| {
        assert a[j..j + |pat|] == s[j..j + |pat|];
        assert At(a, pat, j);
      } else {
        var i := j - |a| - 1;
        SliceOfTail(a + [c], b, i, i + |pat|);
        assert At(b, pat, i);
      }
    }
    if Occurs(pat, a) {
      var j :| At(a, pat, j);
      assert s[j..j + |pat|] == a[j..j + |pat|];
      assert At(s, pat, j);
    }
    if Occurs(pat, b) {
      var j :| At(b, pat, j);
      var i := |a| + 1 + j;
      SliceOfTail(a + [c], b, j, j + |pat|);
      assert At(s, pat, i);
    }
  }

  function LowerChar(c: char): char {
    if 'A' <= c <= 'Z' then (c as int + 32) as char else c
  }

  function Lower(s: string): (r: string)
    ensures |r| == |s| && forall i :: 0 <= i < |r| ==> r[i] == LowerChar(s[i])
  {
    seq(|s|, i requires 0 <= i < |s| => LowerChar(s[i]))
  }

  lemma LowerConcat(a: string, b: string)
    ensures Lower(a + b) == Lower(a) + Lower(b)
  {
  }
}
