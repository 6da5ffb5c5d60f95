/** Bytes, little-endian numbers and writing into the middle of a buffer. */
module Bytes {

  type Byte = c: char | c as int < 256 witness '\0'

  const TWO32 := 0x1_0000_0000
  const TWO64 := 0x1_0000_0000_0000_0000
  const INT64_NULL := -0x8000_0000_0000_0000
  const INT32_NULL := -0x8000_0000

  function Power256(k: nat): nat {
    if k == 0 then 1 else 256 * Power256(k - 1)
  }

  lemma Powers()
    ensures Power256(4) == TWO32 && Power256(8) == TWO64
  {
    assert Power256(1) == 256 && Power256(2) == 0x1_0000 && Power256(3) == 0x100_0000;
    assert Power256(4) == TWO32 && Power256(5) == 0x100_0000_0000;
    assert Power256(6) == 0x1_0000_0000_0000 && Power256(7) == 0x100_0000_0000_0000;
  }

  /** The k low-order bytes of n, least significant first. */
  function Little(n: nat, k: nat): (s: seq<Byte>)
    ensures |s| == k
  {
    if k == 0 then [] else [(n % 256) as char] + Little(n / 256, k - 1)
  }

  function FromLittle(s: seq<Byte>): nat {
    if s == [] then 0 else s[0] as int + 256 * FromLittle(s[1..])
  }

  lemma {:induction false} LittleBack(n: nat, k: nat)
    requires n < Power256(k)
    ensures FromLittle(Little(n, k)) == n
  {
    if k > 0 {
      LittleBack(n / 256, k - 1);
      assert Little(n, k)[1..] == Little(n / 256, k - 1);
    }
  }

  lemma {:induction false} FromLittleBound(s: seq<Byte>)
    ensures FromLittle(s) < Power256(|s|)
  {
    if s != [] {
      FromLittleBound(s[1..]);
    }
  }

  /** Two's complement: the number below size/2 in absolute value with residue n. */
  function Signed(n: nat, size: nat): int {
    if n >= size / 2 then n - size else n
  }

  function Signed64(s: seq<Byte>): int {
    Signed(FromLittle(s), TWO64)
  }

  function Signed32(s: seq<Byte>): int {
    Signed(FromLittle(s), TWO32)
  }

  function Little64(v: int): (s: seq<Byte>)
    ensures |s| == 8
  {
    Little(v % TWO64, 8)
  }

  function Little32(v: int): (s: seq<Byte>)
    ensures |s| == 4
  {
    Little(v % TWO32, 4)
  }

  lemma SignedBack(v: int)
    ensures -TWO64 / 2 <= v < TWO64 / 2 ==> Signed64(Little64(v)) == v
    ensures -TWO32 / 2 <= v < TWO32 / 2 ==> Signed32(Little32(v)) == v
    ensures 0 <= v < TWO64 ==> FromLittle(Little64(v)) == v
  {
    hide Little, FromLittle;
    Powers();
    LittleBack(v % TWO64, 8);
    LittleBack(v % TWO32, 4);
    Residue64(v);
    Residue32(v);
  }

  /** The 4 bytes b are v in two's complement, least significant byte first. */
  predicate Spells32(b: seq<Byte>, v: int) {
    && |b| == 4
    && v == b[0] as int + 0x100 * b[1] as int + 0x1_0000 * b[2] as int + 0x100_0000 * b[3] as int
            - if b[3] as int >= 0x80 then 0x1_0000_0000 else 0
  }

  /** The same for 8 bytes. */
  predicate Spells64(b: seq<Byte>, v: int) {
    && |b| == 8
    && v == b[0] as int + 0x100 * b[1] as int + 0x1_0000 * b[2] as int + 0x100_0000 * b[3] as int
            + 0x1_0000_0000 * b[4] as int + 0x100_0000_0000 * b[5] as int + 0x1_0000_0000_0000 * b[6] as int
            + 0x100_0000_0000_0000 * b[7] as int
            - if b[7] as int >= 0x80 then 0x1_0000_0000_0000_0000 else 0
  }

  lemma FourBytes(b: seq<Byte>)
    requires |b| == 4
    ensures FromLittle(b) == b[0] as int + 0x100 * b[1] as int + 0x1_0000 * b[2] as int + 0x100_0000 * b[3] as int
  {
    assert FromLittle(b) == b[0] as int + 256 * FromLittle(b[1..]);
    assert FromLittle(b[1..]) == b[1] as int + 256 * FromLittle(b[2..]) by {
      assert b[1..][1..] == b[2..];
    }
    assert FromLittle(b[2..]) == b[2] as int + 256 * FromLittle(b[3..]) by {
      assert b[2..][1..] == b[3..];
    }
    assert FromLittle(b[3..]) == b[3] as int;
  }

  lemma ReadSpells32(b: seq<Byte>)
    requires |b| == 4
    ensures Spells32(b, Signed32(b))
  {
    FourBytes(b);
  }

  lemma ReadSpells64(b: seq<Byte>)
    requires |b| == 8
    ensures Spells64(b, Signed64(b))
  {
    Halves(b, 4);
    Powers();
    FourBytes(b[..4]);
    FourBytes(b[4..]);
  }

  lemma Distribute(a: int, x: int, p: int, y: int)
    ensures a + 256 * (x + p * y) == (a + 256 * x) + (256 * p) * y
  {
  }

  lemma {:induction false} Halves(b: seq<Byte>, n: nat)
    requires n <= |b|
    ensures FromLittle(b) == FromLittle(b[..n]) + Power256(n) * FromLittle(b[n..])
  {
    if n == 0 {
      assert b[n..] == b;
    } else {
      Halves(b[1..], n - 1);
      assert b[..n][1..] == b[1..][..n - 1] && b[n..] == b[1..][n - 1..];
      Distribute(b[0] as int, FromLittle(b[1..][..n - 1]), Power256(n - 1), FromLittle(b[n..]));
    }
  }

  lemma WrittenSpells(v: int)
    ensures -0x8000_0000 <= v < 0x8000_0000 ==> Spells32(Little32(v), v)
    ensures -0x8000_0000_0000_0000 <= v < 0x8000_0000_0000_0000 ==> Spells64(Little64(v), v)
  {
    SignedBack(v);
    ReadSpells32(Little32(v));
    ReadSpells64(Little64(v));
  }

  lemma Residue64(v: int)
    ensures -0x8000_0000_0000_0000 <= v < 0 ==> v % 0x1_0000_0000_0000_0000 == v + 0x1_0000_0000_0000_0000
    ensures 0 <= v < 0x1_0000_0000_0000_0000 ==> v % 0x1_0000_0000_0000_0000 == v
  {
  }

  lemma Residue32(v: int)
    ensures -0x8000_0000 <= v < 0 ==> v % 0x1_0000_0000 == v + 0x1_0000_0000
    ensures 0 <= v < 0x1_0000_0000 ==> v % 0x1_0000_0000 == v
  {
  }

  function Repeat(c: Byte, n: nat): (s: seq<Byte>)
    ensures |s| == n && forall i :: 0 <= i < n ==> s[i] == c
  {
    seq(n, _ => c)
  }

  /** s with the bytes from position at on replaced by src. */
  function Splice(s: seq<Byte>, at: nat, src: seq<Byte>): (r: seq<Byte>)
    requires at + |src| <= |s|
    ensures |r| == |s|
    ensures forall i :: 0 <= i < |s| ==> r[i] == if at <= i < at + |src| then src[i - at] else s[i]
  {
    s[..at] + src + s[at + |src|..]
  }

  lemma SpliceHere(s: seq<Byte>, at: nat, src: seq<Byte>)
    requires at + |src| <= |s|
    ensures Splice(s, at, src)[at..at + |src|] == src
  {
  }

  lemma SpliceElsewhere(s: seq<Byte>, at: nat, src: seq<Byte>, lo: nat, hi: nat)
    requires at + |src| <= |s| && lo <= hi <= |s| && (hi <= at || at + |src| <= lo)
    ensures Splice(s, at, src)[lo..hi] == s[lo..hi]
  {
  }
}
