/** The checksum routines of inet_chksum.c, each proved to compute the Internet checksum. */
module Checksum {
  import opened Basics
  import opened ChecksumModel

  const U32 := 0x1_0000_0000

  /** FOLD_U32T */
  function FoldU32(u: nat): nat {
    u / 0x10000 + u % 0x10000
  }

  function FoldTwice(u: nat): nat {
    FoldU32(FoldU32(u))
  }

  lemma FoldU32Is(u: nat)
    requires u < U32
    ensures Same(u, FoldU32(u)) && FoldU32(u) <= 0x1fffe
    ensures u <= 0x1fffe ==> FoldU32(u) == Fold(u)
  {
  }

  lemma FoldTwiceIs(u: nat)
    requires u < U32
    ensures FoldTwice(u) == Fold(u)
  {
  }

  /** lwip_htons on a host of the given byte order. */
  function Htons(big: bool, w: nat): nat {
    if big then w else Swap(w)
  }

  // ---- how long a 32-bit accumulator lasts

  lemma {:induction false} SumBound(big: bool, d: seq<Byte>)
    ensures Sum(big, d) <= 0xffff * ((|d| + 1) / 2)
    decreases |d|
  {
    if |d| > 1 { SumBound(big, d[2..]); }
  }

  /** Whether folding what is left in a wrapping 32-bit accumulator gives the checksum. */
  predicate Survives(big: bool, d: seq<Byte>) {
    FoldTwice(Sum(big, d) % U32) == Chksum(big, d)
  }

  lemma ShortSurvives(big: bool, d: seq<Byte>)
    requires |d| <= 0x20002
    ensures Survives(big, d)
  {
    hide Fold, FoldTwice, Sum;
    SumBound(big, d);
    FoldTwiceIs(Sum(big, d));
  }

  function Ones(n: nat): seq<Byte> { seq(n, _ => 255) }

  function Zeros(n: nat): seq<Byte> { seq(n, _ => 0) }

  lemma OnesLength(n: nat)
    ensures |Ones(n)| == n
  {
  }

  lemma {:induction false} SumOnes(big: bool, n: nat)
    ensures Sum(big, Ones(n)) == 0xffff * (n / 2) + if n % 2 == 1 then Pair(big, 255, 0) else 0
  {
    if n > 1 {
      assert Ones(n)[2..] == Ones(n - 2);
      SumOnes(big, n - 2);
    }
  }

  lemma {:induction false} SumZeros(big: bool, n: nat)
    ensures Sum(big, Zeros(n)) == 0
  {
    if n > 1 {
      assert Zeros(n)[2..] == Zeros(n - 2);
      SumZeros(big, n - 2);
    }
  }

  /** 131075 bytes of 0xff, zeros behind them: one carry is lost. */
  lemma LongCanFail(big: bool, n: nat)
    requires n > 0x20002
    ensures !Survives(big, Ones(0x20003) + Zeros(n - 0x20003))
  {
    hide Sum, FoldTwice, Ones, Zeros;
    var d, w := Ones(0x20003) + Zeros(n - 0x20003), Pair(big, 255, 0);
    assert |Ones(0x20003)| == 0x20003 by { OnesLength(0x20003); }
    SumConcat(big, Ones(0x20003), Zeros(n - 0x20003));
    SumOnes(big, 0x20003);
    SumZeros(!big, n - 0x20003);
    assert Sum(big, d) == U32 - 1 + w;
    ApartSame(Sum(big, d), w, 0x10001);
    FoldTwiceIs(w - 1);
  }

  /** Buffers of n bytes are summed correctly whatever they hold exactly when n is at most 0x20002. */
  lemma LengthLimit(big: bool, n: nat)
    ensures (forall d: seq<Byte> :: |d| == n ==> Survives(big, d)) <==> n <= 0x20002
  {
    if n <= 0x20002 {
      forall d: seq<Byte> | |d| == n ensures Survives(big, d) {
        ShortSurvives(big, d);
      }
    } else {
      LongCanFail(big, n);
    }
  }

  // ---- lwip_standard_chksum

  /** What wraps around is a multiple of 2^32. */
  lemma Wrapped(sum: nat, carries: nat, all: nat)
    requires sum < U32 && sum + U32 * carries == all
    ensures all % U32 == sum
  {
  }

  /** Version 1: byte by byte. */
  method Chksum1(data: seq<Byte>, big: bool) returns (r: nat)
    ensures r == Htons(big, FoldTwice(Sum(true, data) % U32))
    ensures |data| <= 0x20002 ==> r == Chksum(big, data)
  {
    hide Fold, Swap, FoldTwice;
    var acc: nat, i: nat := 0, 0;
    ghost var carries: nat := 0;
    while |data| - i > 1
      invariant i <= |data| && acc < U32
      invariant acc + U32 * carries + Sum(true, data[i..]) == Sum(true, data)
    {
      var src := Pair(true, data[i], data[i + 1]);
      assert data[i..][2..] == data[i + 2..];
      carries := carries + (acc + src) / U32;
      acc, i := (acc + src) % U32, i + 2;
    }
    if |data| - i > 0 {
      assert data[i..] == [data[i]];
      var src := Pair(true, data[i], 0);
      carries := carries + (acc + src) / U32;
      acc := (acc + src) % U32;
    }
    Wrapped(acc, carries, Sum(true, data));
    r := FoldTail(acc);
    r := Htons(big, r);
    if |data| <= 0x20002 { ShortSurvives(true, data); }
    SwapChksum(true, data);
  }

  /** The end of version 1: the second fold only if the first one left a carry. */
  method FoldTail(acc: nat) returns (r: nat)
    requires acc < U32
    ensures r == FoldTwice(acc)
  {
    r := FoldU32(acc);
    if r / 0x10000 != 0 {
      r := FoldU32(r);
    }
  }

  /** What the 16-bit reads add up to: at an odd address as if one zero byte came first. */
  function Bulk(odd: bool, big: bool, data: seq<Byte>): nat {
    Sum(if odd then !big else big, data)
  }

  /** The first byte at an odd address goes to t[1], the last byte to t[0]. */
  lemma BulkAtOdd(big: bool, data: seq<Byte>)
    requires |data| > 0
    ensures Bulk(true, big, data) == Pair(big, 0, data[0]) + Sum(big, data[1..])
  {
    assert data == [data[0]] + data[1..];
    SumShift(!big, data[0], data[1..]);
  }

  /** Version 2: 16 bits at a time; t0 and t1 are the bytes of t. */
  method Chksum2(data: seq<Byte>, addr: nat, big: bool) returns (r: nat)
    ensures var sum := FoldTwice(Bulk(addr % 2 == 1, big, data) % U32);
            r == if addr % 2 == 1 then Swap(sum) else sum
    ensures |data| <= 0x20002 ==> r == Chksum(big, data)
  {
    hide Fold, Swap, FoldU32;
    var odd := addr % 2 == 1;
    var t0: Byte, t1: Byte, sum: nat, i: nat := 0, 0, 0, 0;
    ghost var all, carries: nat := Bulk(odd, big, data), 0;
    if odd && |data| > 0 {
      BulkAtOdd(big, data);
      t1, i := data[0], 1;
    }
    while |data| - i > 1
      invariant i <= |data| && sum < U32
      invariant sum + U32 * carries + Pair(big, 0, t1) + Sum(big, data[i..]) == all
    {
      var w := Pair(big, data[i], data[i + 1]);
      assert data[i..][2..] == data[i + 2..];
      carries := carries + (sum + w) / U32;
      sum, i := (sum + w) % U32, i + 2;
    }
    if |data| - i > 0 {
      assert data[i..] == [data[i]];
      t0 := data[i];
    }
    carries := carries + (sum + Pair(big, t0, t1)) / U32;
    sum := (sum + Pair(big, t0, t1)) % U32;
    Wrapped(sum, carries, all);
    sum := FoldU32(sum);
    sum := FoldU32(sum);
    r := if odd then Swap(sum) else sum;
    if |data| <= 0x20002 { ShortSurvives(if odd then !big else big, data); }
    SwapChksum(!big, data);
  }

  /** A 32-bit read. */
  function Word32(big: bool, a: Byte, b: Byte, c: Byte, d: Byte): nat {
    if big then 0x10000 * Pair(big, a, b) + Pair(big, c, d) else Pair(big, a, b) + 0x10000 * Pair(big, c, d)
  }

  /** One ping or pong of version 3: add a word and the carry it may have caused. */
  method AddCarry(sum: nat, w: nat) returns (r: nat)
    requires sum < U32 && w < U32
    ensures r < U32 && Same(r, sum + w)
  {
    r := (sum + w) % U32;
    if r < sum {
      r := r + 1;
      ApartSame(r, sum + w, -0x10001);
    }
  }

  lemma WordSame(big: bool, a: Byte, b: Byte, c: Byte, d: Byte)
    ensures Word32(big, a, b, c, d) < U32 && Same(Word32(big, a, b, c, d), Pair(big, a, b) + Pair(big, c, d))
  {
    var x: int, y: int := Pair(big, a, b), Pair(big, c, d);
    ApartSame(Word32(big, a, b, c, d), Pair(big, a, b) + Pair(big, c, d), if big then x else y);
  }

  /** A step of the unrolled loop does not change what the sum is in the end. */
  lemma LoopStep(sum: nat, sum': nat, w: nat, w': nat, rest: nat, rest': nat)
    requires Same(sum', sum + w) && Same(w, w') && rest == w' + rest'
    ensures Same(sum' + rest', sum + rest)
  {
    hide Fold;
    SameAdd(sum, sum, w, w');
    SameAdd(sum', sum + w', rest', rest');
  }

  /** The body of the unrolled loop: two words of 32 bits. */
  method PingPong(sum: nat, d: seq<Byte>, big: bool, ghost rest: nat) returns (r: nat)
    requires sum < U32 && |d| >= 8
    ensures r < U32 && Same(r + Sum(big, d[8..]) + rest, sum + Sum(big, d) + rest)
  {
    hide Fold, Word32, Pair, Sum;
    assert d[2..][2..] == d[4..] && d[4..][2..] == d[6..] && d[6..][2..] == d[8..];
    SumStep(big, d);
    SumStep(big, d[2..]);
    SumStep(big, d[4..]);
    SumStep(big, d[6..]);
    WordSame(big, d[0], d[1], d[2], d[3]);
    WordSame(big, d[4], d[5], d[6], d[7]);
    var tmp := AddCarry(sum, Word32(big, d[0], d[1], d[2], d[3]));
    r := AddCarry(tmp, Word32(big, d[4], d[5], d[6], d[7]));
    LoopStep(sum, tmp, Word32(big, d[0], d[1], d[2], d[3]), Pair(big, d[0], d[1]) + Pair(big, d[2], d[3]),
             Sum(big, d) + rest, Sum(big, d[4..]) + rest);
    LoopStep(tmp, r, Word32(big, d[4], d[5], d[6], d[7]), Pair(big, d[4], d[5]) + Pair(big, d[6], d[7]),
             Sum(big, d[4..]) + rest, Sum(big, d[8..]) + rest);
  }

  /** The words and the byte that are left over at the end of version 3. */
  method Tail(start: nat, d: seq<Byte>, t1: Byte, big: bool) returns (sum: nat)
    requires start <= 0x1fffe && |d| <= 7
    ensures sum == start + Pair(big, 0, t1) + Sum(big, d) < U32
  {
    sum := start;
    var i: nat := 0;
    while |d| - i > 1
      invariant i <= |d| && sum + Sum(big, d[i..]) == start + Sum(big, d) && sum <= start + 0xffff * i
    {
      assert d[i..][2..] == d[i + 2..];
      sum, i := sum + Pair(big, d[i], d[i + 1]), i + 2;
    }
    var t0: Byte := 0;
    if |d| - i > 0 {
      assert d[i..] == [d[i]];
      t0 := d[i];
    }
    sum := sum + Pair(big, t0, t1);
  }

  /** The beginning of version 3: up to an address that is a multiple of four. */
  method Head(data: seq<Byte>, addr: nat, big: bool) returns (t1: Byte, sum: nat, i: nat)
    ensures i <= |data| && sum <= 0xffff
    ensures sum + Sum(big, data[i..]) + Pair(big, 0, t1) == Bulk(addr % 2 == 1, big, data)
  {
    t1, sum, i := 0, 0, 0;
    if addr % 2 == 1 && |data| > 0 {
      BulkAtOdd(big, data);
      t1, i := data[0], 1;
    }
    assert |data| == 0 ==> data == [] && Sum(big, data) == 0;
    assert Sum(big, data[i..]) + Pair(big, 0, t1) == Bulk(addr % 2 == 1, big, data);
    if (addr + i) % 4 != 0 && |data| - i > 1 {
      assert data[i..][2..] == data[i + 2..];
      sum, i := Pair(big, data[i], data[i + 1]), i + 2;
    }
  }

  /** Version 3: 64 bits at a time, for every length. */
  method Chksum3(data: seq<Byte>, addr: nat, big: bool) returns (r: nat)
    ensures r == Chksum(big, data)
  {
    hide Fold, Swap, FoldU32, Sum, Pair;
    var odd := addr % 2 == 1;
    var t1: Byte, sum: nat, i: nat := Head(data, addr, big);
    ghost var all := Bulk(odd, big, data);
    while |data| - i > 7
      invariant i <= |data| && sum < U32 && Same(sum + Sum(big, data[i..]) + Pair(big, 0, t1), all)
    {
      assert data[i..][8..] == data[i + 8..];
      sum := PingPong(sum, data[i..], big, Pair(big, 0, t1));
      i := i + 8;
    }
    FoldU32Is(sum);
    SameAdd(sum, FoldU32(sum), Sum(big, data[i..]) + Pair(big, 0, t1), Sum(big, data[i..]) + Pair(big, 0, t1));
    sum := FoldU32(sum);
    sum := Tail(sum, data[i..], t1, big);
    FoldTwiceIs(sum);
    sum := FoldU32(sum);
    sum := FoldU32(sum);
    r := if odd then Swap(sum) else sum;
    SwapChksum(!big, data);
  }

  lemma SumStep(big: bool, d: seq<Byte>)
    requires |d| > 1
    ensures Sum(big, d) == Pair(big, d[0], d[1]) + Sum(big, d[2..])
  {
  }
}
