/** Decimal numerals as a stream prints them, and reading them back. */
module Decimal {
  import opened Prelude

  predicate IsDigit(c: char) {
    '0' <= c <= '9'
  }

  predicate Digits(s: string) {
    forall i :: 0 <= i < |s| ==> IsDigit(s[i])
  }

  function Digit(d: nat): (c: char)
    requires d < 10
    ensures IsDigit(c) && c as int - '0' as int == d
  {
    ('0' as int + d) as char
  }

  function Dec(n: nat): (s: string)
    ensures s != "" && Digits(s)
  {
    if n < 10 then [Digit(n)] else Dec(n / 10) + [Digit(n % 10)]
  }

  function DecInt(v: int): (s: string)
    ensures s != "" && (v < 0 <==> s[0] == '-')
  {
    if v < 0 then "-" + Dec(-v) else Dec(v)
  }

  function FromDigits(s: string): nat
    requires Digits(s)
  {
    if s == "" then 0 else 10 * FromDigits(s[..|s| - 1]) + (s[|s| - 1] as int - '0' as int)
  }

  function ParseNat(s: string): Option<nat> {
    if s != "" && Digits(s) then Some(FromDigits(s)) else None
  }

  function ParseInt(s: string): Option<int> {
    if s != "" && s[0] == '-' then
      var n := ParseNat(s[1..]);
      if n.Some? then Some(0 - n.value) else None
    else
      var n := ParseNat(s);
      if n.Some? then Some(n.value) else None
  }

  lemma {:induction false} DecBack(n: nat)
    ensures ParseNat(Dec(n)) == Some(n)
  {
    if n >= 10 {
      DecBack(n / 10);
      var last := |Dec(n)| - 1;
      assert Dec(n)[..last] == Dec(n / 10) && Dec(n)[last] == Digit(n % 10);
      assert FromDigits(Dec(n)) == 10 * (n / 10) + n % 10;
    }
  }

  lemma IntBack(v: int)
    ensures ParseInt(DecInt(v)) == Some(v)
  {
    DecBack(if v < 0 then -v else v);
    assert v < 0 ==> DecInt(v)[1..] == Dec(-v);
  }

  /** setfill('0') and setw(width): zeros in front of a numeral that is too short. */
  function Padded(n: nat, width: nat): (s: string)
    ensures s != "" && Digits(s)
  {
    Zeroes(width - |Dec(n)|) + Dec(n)
  }

  function Zeroes(k: int): (s: string)
    ensures |s| == (if k < 0 then 0 else k) && Digits(s)
  {
    if k <= 0 then "" else Zeroes(k - 1) + "0"
  }

  lemma {:induction false} PaddedBack(n: nat, width: nat)
    ensures ParseNat(Padded(n, width)) == Some(n)
  {
    DecBack(n);
    ZeroesInFront(width - |Dec(n)|, Dec(n));
  }

  lemma {:induction false} ZeroesInFront(k: int, s: string)
    requires Digits(s)
    ensures Digits(Zeroes(k) + s) && FromDigits(Zeroes(k) + s) == FromDigits(s)
    decreases |s|, k
  {
    if s == "" {
      assert Zeroes(k) + s == Zeroes(k);
      if k > 0 {
        ZeroesInFront(k - 1, s);
        assert Zeroes(k - 1) + s == Zeroes(k - 1);
        assert Zeroes(k)[..|Zeroes(k)| - 1] == Zeroes(k - 1);
      }
    } else {
      var front := s[..|s| - 1];
      ZeroesInFront(k, front);
      assert (Zeroes(k) + s)[..|Zeroes(k) + s| - 1] == Zeroes(k) + front;
    }
  }

  lemma {:induction false} DecWidth(n: nat, width: nat)
    requires width > 0 && n < Power10(width)
    ensures |Dec(n)| <= width
  {
    if n >= 10 {
      assert Power10(width) == 10 * Power10(width - 1);
      assert Power10(0) == 1;
      DecWidth(n / 10, width - 1);
    }
  }

  function Power10(k: nat): nat {
    if k == 0 then 1 else 10 * Power10(k - 1)
  }

  /** s up to the first c, and what follows it. */
  function CutAt(s: string, c: char): Option<(string, string)> {
    if s == "" then None
    else if s[0] == c then Some(("", s[1..]))
    else match CutAt(s[1..], c)
         case None => None
         case Some(p) => Some(([s[0]] + p.0, p.1))
  }

  lemma {:induction false} CutFirst(a: string, c: char, b: string)
    requires c !in a
    ensures CutAt(a + [c] + b, c) == Some((a, b))
  {
    if a != "" {
      CutFirst(a[1..], c, b);
      assert (a + [c] + b)[1..] == a[1..] + [c] + b;
      assert a == [a[0]] + a[1..];
    }
  }
}
