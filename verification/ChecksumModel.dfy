/**
 The Internet checksum (sections 1 and 2 of RFC 1071) as mathematics: a plain sum of 16-bit
 words, folded once at the end. `big` is the byte order in which a host reads words.
*/
module ChecksumModel {
  import opened Basics

  /** The 16-bit word a host reads from two bytes. */
  function Pair(big: bool, a: Byte, b: Byte): (r: nat)
    ensures r <= 0xffff
  {
    if big then 256 * a + b else a + 256 * b
  }

  /** The sum of all words, an odd byte at the end padded with a zero byte. */
  function Sum(big: bool, d: seq<Byte>): nat {
    if |d| == 0 then 0
    else if |d| == 1 then Pair(big, d[0], 0)
    else Pair(big, d[0], d[1]) + Sum(big, d[2..])
  }

  /** n as a 16-bit number in one's complement arithmetic; only 0 becomes 0. */
  function Fold(n: nat): (r: nat)
    ensures r <= 0xffff && (r == 0 <==> n == 0)
  {
    if n == 0 then 0 else (n - 1) % 0xffff + 1
  }

  /** What lwip_standard_chksum is to return. */
  function Chksum(big: bool, d: seq<Byte>): (r: nat)
    ensures r <= 0xffff
  {
    Fold(Sum(big, d))
  }

  /** Addition with end-around carry. */
  function Add(a: nat, b: nat): nat {
    if a + b > 0xffff then a + b - 0xffff else a + b
  }

  /** Section 1 of RFC 1071 word by word, first byte most significant. */
  function Rfc1071(d: seq<Byte>): nat {
    if |d| == 0 then 0
    else if |d| == 1 then Pair(true, d[0], 0)
    else Add(Pair(true, d[0], d[1]), Rfc1071(d[2..]))
  }

  /** a and b are the same number in one's complement arithmetic. */
  predicate Same(a: nat, b: nat) {
    Fold(a) == Fold(b)
  }

  // ---- folding

  lemma ApartSame(a: nat, b: nat, k: int)
    requires a == b + 0xffff * k && (a == 0 <==> b == 0)
    ensures Same(a, b)
  {
  }

  lemma SameApart(a: nat, b: nat) returns (k: int)
    requires Same(a, b)
    ensures a == b + 0xffff * k && (a == 0 <==> b == 0)
  {
    k := 0;
    if a != 0 {
      k := (a - 1) / 0xffff - (b - 1) / 0xffff;
    }
  }

  lemma FoldSame(a: nat)
    ensures Same(a, Fold(a)) && Fold(Fold(a)) == Fold(a)
  {
  }

  lemma SameAdd(a: nat, b: nat, c: nat, d: nat)
    requires Same(a, b) && Same(c, d)
    ensures Same(a + c, b + d)
  {
    var k := SameApart(a, b);
    var m := SameApart(c, d);
    ApartSame(a + c, b + d, k + m);
  }

  lemma Same256(a: nat, b: nat)
    requires Same(a, b)
    ensures Same(256 * a, 256 * b)
  {
    var k := SameApart(a, b);
    ApartSame(256 * a, 256 * b, 256 * k);
  }

  lemma AddFolds(a: nat, b: nat)
    requires a <= 0xffff && b <= 0xffff
    ensures Add(a, b) == Fold(a + b)
  {
  }

  /** Folding in the end is the same as carrying around at every step. */
  lemma {:induction false} SumIsRfc1071(d: seq<Byte>)
    ensures Chksum(true, d) == Rfc1071(d) <= 0xffff
  {
    if |d| > 1 {
      SumIsRfc1071(d[2..]);
      var a, s := Pair(true, d[0], d[1]), Sum(true, d[2..]);
      AddFolds(a, Fold(s));
      FoldSame(s);
      SameAdd(a, a, s, Fold(s));
    }
  }

  // ---- byte order

  function Swap(w: nat): nat {
    (w % 256) * 256 + w / 256 % 256
  }

  lemma SwapHalves(h: nat, l: nat)
    requires h < 256 && l < 256
    ensures Swap(256 * h + l) == 256 * l + h
  {
  }

  lemma FoldOf(w: nat)
    requires w <= 0xffff
    ensures Fold(w) == w
  {
  }

  lemma SwapIs(w: nat)
    requires w <= 0xffff
    ensures Swap(w) <= 0xffff && Swap(Swap(w)) == w && Fold(Swap(w)) == Swap(w) && Same(256 * w, Swap(w))
  {
    var h, l := w / 256, w % 256;
    assert w == 256 * h + l && Swap(w) == 256 * l + h by { SwapHalves(h, l); }
    SwapHalves(l, h);
    hide Swap;
    ApartSame(256 * w, Swap(w), h);
    FoldOf(Swap(w));
  }

  /** Reading words in the other byte order multiplies the sum by 256. */
  lemma {:induction false} OtherOrder(big: bool, d: seq<Byte>)
    ensures Same(Sum(!big, d), 256 * Sum(big, d))
    decreases |d|
  {
    if |d| > 0 {
      var a, b := d[0], if |d| > 1 then d[1] else 0;
      var rest := if |d| > 1 then d[2..] else [];
      PairOrder(big, a, b);
      OtherOrder(big, rest);
      SameAdd(Pair(!big, a, b), 256 * Pair(big, a, b), Sum(!big, rest), 256 * Sum(big, rest));
    }
  }

  lemma PairOrder(big: bool, a: Byte, b: Byte)
    ensures Same(Pair(!big, a, b), 256 * Pair(big, a, b))
  {
    var x, y: int := a, b;
    ApartSame(Pair(!big, a, b), 256 * Pair(big, a, b), if big then -x else -y);
  }

  /** Section 2 (B) of RFC 1071: the sum in the other byte order is the swapped sum. */
  lemma SwapChksum(big: bool, d: seq<Byte>)
    ensures Swap(Chksum(big, d)) == Chksum(!big, d)
  {
    hide Fold, Swap;
    var s := Sum(big, d);
    OtherOrder(big, d);
    FoldSame(s);
    Same256(s, Fold(s));
    SwapIs(Fold(s));
  }

  /** Appending after an odd number of bytes shifts every word by one byte. */
  lemma {:induction false} SumConcat(big: bool, a: seq<Byte>, b: seq<Byte>)
    ensures |a| % 2 == 0 ==> Sum(big, a + b) == Sum(big, a) + Sum(big, b)
    ensures |a| % 2 == 1 ==> Sum(big, a + b) == Sum(big, a) + Sum(!big, b)
  {
    if |a| == 0 {
      assert a + b == b;
    } else if |a| == 1 {
      assert a == [a[0]];
      SumShift(big, a[0], b);
    } else {
      assert (a + b)[2..] == a[2..] + b;
      SumConcat(big, a[2..], b);
    }
  }

  lemma {:induction false} SumShift(big: bool, x: Byte, b: seq<Byte>)
    ensures Sum(big, [x] + b) == Pair(big, x, 0) + Sum(!big, b)
    decreases |b|
  {
    if |b| == 1 {
      assert ([x] + b)[2..] == [];
    } else if |b| > 1 {
      assert ([x] + b)[2..] == [b[1]] + b[2..];
      SumShift(big, b[1], b[2..]);
    }
  }
}
