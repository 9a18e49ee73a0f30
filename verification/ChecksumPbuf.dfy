/** Checksums over pbuf chains, the TCP and UDP pseudo header, storing a checksum, and the routine of net.c. */
module ChecksumPbuf {
  import opened Basics
  import opened ChecksumModel
  import opened Checksum

  /** One pbuf: its bytes and the address they start at. */
  datatype Pbuf = Pbuf(payload: seq<Byte>, addr: nat)

  /** The lengths of pbufs are u16_t. */
  predicate ShortPbufs(ps: seq<Pbuf>) {
    forall i {:trigger ps[i]} :: 0 <= i < |ps| ==> |ps[i].payload| <= 0xffff
  }

  function Flat(ps: seq<Pbuf>): seq<Byte> {
    if ps == [] then [] else Flat(ps[..|ps| - 1]) + ps[|ps| - 1].payload
  }

  lemma FlatNext(ps: seq<Pbuf>, i: nat)
    requires i < |ps|
    ensures Flat(ps[..i + 1]) == Flat(ps[..i]) + ps[i].payload
  {
    assert ps[..i + 1][..i] == ps[..i];
  }

  /** Behind an even number of bytes the segment is added as it is; behind an odd number
      the sum so far is kept in the other byte order, in which the segment fits again. */
  lemma ChainStep(big: bool, swapped: bool, flat: seq<Byte>, seg: seq<Byte>, acc: nat)
    requires acc == Chksum(big != swapped, flat) && swapped == (|flat| % 2 == 1)
    ensures FoldU32(acc + Chksum(big, seg)) == Chksum(big != swapped, flat + seg)
  {
    hide Fold, Sum;
    var o := big != swapped;
    SumConcat(o, flat, seg);
    FoldSame(Sum(o, flat));
    FoldSame(Sum(big, seg));
    SameAdd(Sum(o, flat), acc, Sum(big, seg), Chksum(big, seg));
    FoldU32Is(acc + Chksum(big, seg));
  }

  /** One round of the loop over a chain: add `seg`, and swap if `swap`. */
  method AddSegment(acc: nat, swapped: bool, seg: seq<Byte>, addr: nat, swap: bool, big: bool, ghost flat: seq<Byte>)
    returns (acc': nat, swapped': bool)
    requires acc == Chksum(big != swapped, flat) && swapped == (|flat| % 2 == 1) && |seg| <= 0xffff
    ensures acc' == Chksum(big != swapped', flat + seg) && swapped' == (swapped != swap)
  {
    hide Chksum, FoldU32, Swap;
    ChainStep(big, swapped, flat, seg, acc);
    var c := Chksum2(seg, addr, big);
    acc', swapped' := FoldU32(acc + c), swapped;
    if swap {
      SwapChksum(big != swapped, flat + seg);
      acc', swapped' := Swap(acc'), !swapped;
    }
  }

  /** The sum over a chain behind a header of even length whose sum is acc0. */
  method SumChain(ps: seq<Pbuf>, acc0: nat, big: bool, ghost hdr: seq<Byte>) returns (acc: nat)
    requires ShortPbufs(ps) && |hdr| % 2 == 0 && acc0 == Chksum(big, hdr)
    ensures acc == Chksum(big, hdr + Flat(ps))
  {
    hide Chksum, Swap;
    var swapped := false;
    acc := acc0;
    assert hdr + Flat(ps[..0]) == hdr;
    for i := 0 to |ps|
      invariant acc == Chksum(big != swapped, hdr + Flat(ps[..i]))
      invariant swapped == (|hdr + Flat(ps[..i])| % 2 == 1)
    {
      FlatNext(ps, i);
      assert hdr + Flat(ps[..i]) + ps[i].payload == hdr + Flat(ps[..i + 1]);
      acc, swapped := AddSegment(acc, swapped, ps[i].payload, ps[i].addr, |ps[i].payload| % 2 != 0, big, hdr + Flat(ps[..i]));
    }
    assert ps[..|ps|] == ps;
    if swapped {
      SwapChksum(!big, hdr + Flat(ps));
      acc := Swap(acc);
    }
  }

  /** inet_chksum_pbuf: the checksum of the concatenated payload, however it is cut up. */
  method InetChksumPbuf(ps: seq<Pbuf>, big: bool) returns (r: nat)
    requires ShortPbufs(ps)
    ensures r == 0xffff - Chksum(big, Flat(ps))
  {
    assert [] + Flat(ps) == Flat(ps) && Chksum(big, []) == 0;
    var acc := SumChain(ps, 0, big, []);
    r := 0xffff - acc;
  }

  // ---- the pseudo header

  function Bytes16(w: nat): (r: seq<Byte>)
    requires w <= 0xffff
    ensures |r| == 2
  {
    [w / 256, w % 256]
  }

  /** Everything a TCP or UDP checksum covers: addresses, protocol, length, data. */
  function Covered(addrs: seq<Byte>, proto: Byte, protoLen: nat, data: seq<Byte>): seq<Byte>
    requires protoLen <= 0xffff
  {
    addrs + [0, proto] + Bytes16(protoLen) + data
  }

  lemma CoveredSum(big: bool, addrs: seq<Byte>, proto: Byte, protoLen: nat, data: seq<Byte>)
    requires protoLen <= 0xffff && |addrs| % 2 == 0
    ensures Sum(big, Covered(addrs, proto, protoLen, data)) ==
              Sum(big, addrs + data) + Pair(big, 0, proto) + Pair(big, protoLen / 256, protoLen % 256)
  {
    hide Sum, Pair, Bytes16;
    SumThree(big, addrs, [0, proto], Bytes16(protoLen), data);
    Sum2(big, 0, proto);
    BytesSum(big, protoLen);
    SumConcat(big, addrs, data);
  }

  lemma SumThree(big: bool, a: seq<Byte>, b: seq<Byte>, c: seq<Byte>, d: seq<Byte>)
    requires |a| % 2 == 0 && |b| == |c| == 2
    ensures Sum(big, a + b + c + d) == Sum(big, a) + Sum(big, b) + Sum(big, c) + Sum(big, d)
  {
    hide Sum;
    var x := a + b;
    SumConcat(big, a, b);
    assert |x| == |a| + 2;
    SumConcat(big, x, c);
    assert |x + c| == |a| + 4;
    SumConcat(big, x + c, d);
  }

  lemma BytesSum(big: bool, w: nat)
    requires w <= 0xffff
    ensures Sum(big, Bytes16(w)) == Pair(big, w / 256, w % 256)
  {
  }

  lemma Sum2(big: bool, a: Byte, b: Byte)
    ensures Sum(big, [a, b]) == Pair(big, a, b)
  {
  }

  /** The end of inet_cksum_pseudo_base: protocol and length are added last. */
  method AddProto(acc: nat, proto: Byte, protoLen: nat, big: bool, ghost addrs: seq<Byte>, ghost data: seq<Byte>) returns (r: nat)
    requires protoLen <= 0xffff && |addrs| % 2 == 0 && acc == Chksum(big, addrs + data)
    ensures r == 0xffff - Chksum(big, Covered(addrs, proto, protoLen, data))
  {
    hide Fold, Sum;
    ghost var s := Sum(big, addrs + data);
    var a, b := Pair(big, 0, proto), Pair(big, protoLen / 256, protoLen % 256);
    CoveredSum(big, addrs, proto, protoLen, data);
    FoldSame(s);
    SameAdd(s, acc, a + b, a + b);
    FoldTwiceIs(acc + a + b);
    r := 0xffff - FoldTwice(acc + a + b);
  }

  /** inet_chksum_pseudo for a source and a destination address of four bytes each. */
  method InetChksumPseudo(ps: seq<Pbuf>, proto: Byte, protoLen: nat, src: seq<Byte>, dst: seq<Byte>, big: bool) returns (r: nat)
    requires ShortPbufs(ps) && protoLen <= 0xffff && |src| == |dst| == 4
    ensures r == 0xffff - Chksum(big, Covered(src + dst, proto, protoLen, Flat(ps)))
  {
    hide Word32, Pair, Sum, FoldTwice, Fold, Covered;
    var a, b := Word32(big, src[0], src[1], src[2], src[3]), Word32(big, dst[0], dst[1], dst[2], dst[3]);
    WordHalves(big, src[0], src[1], src[2], src[3]);
    WordHalves(big, dst[0], dst[1], dst[2], dst[3]);
    var acc := a % 0x10000 + a / 0x10000 + b % 0x10000 + b / 0x10000;
    AddressSum(big, src, dst);
    FoldTwiceIs(acc);
    acc := SumChain(ps, FoldTwice(acc), big, src + dst);
    r := AddProto(acc, proto, protoLen, big, src + dst, Flat(ps));
  }

  lemma WordHalves(big: bool, a: Byte, b: Byte, c: Byte, d: Byte)
    ensures var w := Word32(big, a, b, c, d);
            w % 0x10000 + w / 0x10000 == Pair(big, a, b) + Pair(big, c, d) <= 0x1fffe
  {
  }

  lemma AddressSum(big: bool, src: seq<Byte>, dst: seq<Byte>)
    requires |src| == |dst| == 4
    ensures Sum(big, src + dst) ==
              Pair(big, src[0], src[1]) + Pair(big, src[2], src[3]) + Pair(big, dst[0], dst[1]) + Pair(big, dst[2], dst[3])
  {
    SumConcat(big, src, dst);
    assert src[2..][2..] == [] && dst[2..][2..] == [];
    SumStep(big, src);
    SumStep(big, dst);
    SumStep(big, src[2..]);
    SumStep(big, dst[2..]);
  }

  // ---- the partial form

  /** The first bytes of a chain. */
  function Prefix(ps: seq<Pbuf>, n: nat): seq<Byte> {
    Flat(ps)[..Min(n, |Flat(ps)|)]
  }

  lemma {:induction false} FlatPrefix(ps: seq<Pbuf>, i: nat)
    requires i <= |ps|
    ensures Flat(ps[..i]) <= Flat(ps)
    decreases |ps| - i
  {
    if i < |ps| {
      FlatNext(ps, i);
      FlatPrefix(ps, i + 1);
    } else {
      assert ps[..i] == ps;
    }
  }

  lemma PrefixNext(ps: seq<Pbuf>, i: nat, n: nat)
    requires i < |ps|
    ensures var taken, seg := Prefix(ps[..i], n), ps[i].payload;
            |taken| <= n && Prefix(ps[..i + 1], n) == taken + seg[..Min(|seg|, n - |taken|)]
  {
    FlatNext(ps, i);
  }

  lemma PrefixEmpty(ps: seq<Pbuf>, n: nat)
    ensures Prefix(ps[..0], n) == []
  {
  }

  /** Further pbufs add nothing once n bytes are there. */
  lemma PrefixDone(ps: seq<Pbuf>, i: nat, n: nat)
    requires i <= |ps| && (i == |ps| || |Prefix(ps[..i], n)| == n)
    ensures Prefix(ps[..i], n) == Prefix(ps, n)
  {
    FlatPrefix(ps, i);
    assert ps[..|ps|] == ps;
  }

  /** The first pbuf takes this much off chksum_len. */
  function LeftAfterFirst(ps: seq<Pbuf>, chksumLen: nat): int
    requires ps != []
  {
    chksumLen - Min(|ps[0].payload|, chksumLen)
  }

  /** The loop of inet_cksum_pseudo_partial_base. It decides by the full length of a pbuf whether to
      swap, also when only part of it counts; that happens in the last round only, and is undone.
      `fine`: the assertion that chksum_len has dropped below 0x7fff held in every round. */
  method SumPartial(ps: seq<Pbuf>, chksumLen: nat, acc0: nat, big: bool, ghost hdr: seq<Byte>) returns (acc: nat, fine: bool)
    requires ShortPbufs(ps) && chksumLen <= 0xffff && |hdr| % 2 == 0 && acc0 == Chksum(big, hdr)
    ensures acc == Chksum(big, hdr + Prefix(ps, chksumLen))
    ensures fine <==> ps == [] || chksumLen == 0 || LeftAfterFirst(ps, chksumLen) < 0x7fff
  {
    hide Chksum, Swap, Prefix;
    assert Prefix(ps[..0], chksumLen) == [] by { PrefixEmpty(ps, chksumLen); }
    var swapped, left: nat, i: nat := false, chksumLen, 0;
    ghost var taken: seq<Byte> := [];
    acc, fine := acc0, true;
    assert hdr + taken == hdr;
    while i < |ps| && left > 0
      invariant i <= |ps| && left == chksumLen - |taken| && acc == Chksum(big != swapped, hdr + taken)
      invariant taken == Prefix(ps[..i], chksumLen)
      invariant left > 0 ==> swapped == (|hdr + taken| % 2 == 1)
      invariant i == 0 ==> fine && left == chksumLen
      invariant i > 0 ==> left <= LeftAfterFirst(ps, chksumLen) && (fine <==> LeftAfterFirst(ps, chksumLen) < 0x7fff)
    {
      var seg := ps[i].payload;
      var chklen := Min(|seg|, left);
      PrefixNext(ps, i, chksumLen);
      acc, swapped := AddSegment(acc, swapped, seg[..chklen], ps[i].addr, |seg| % 2 != 0, big, hdr + taken);
      assert hdr + taken + seg[..chklen] == hdr + (taken + seg[..chklen]);
      taken := taken + seg[..chklen];
      left := left - chklen;
      fine := fine && left < 0x7fff;
      i := i + 1;
    }
    PrefixDone(ps, i, chksumLen);
    if swapped {
      SwapChksum(!big, hdr + taken);
      acc := Swap(acc);
    }
  }

  /** One byte, then 0x8000 bytes, all of which count: the assertion fails in the first round. */
  lemma PartialExample(x: Byte, rest: seq<Byte>, addr1: nat, addr2: nat)
    requires |rest| == 0x8000
    ensures var ps := [Pbuf([x], addr1), Pbuf(rest, addr2)]; ShortPbufs(ps) && !(LeftAfterFirst(ps, 0x8001) < 0x7fff)
  {
  }

  /** inet_chksum_pseudo_partial */
  method InetChksumPseudoPartial(ps: seq<Pbuf>, proto: Byte, protoLen: nat, chksumLen: nat, src: seq<Byte>, dst: seq<Byte>, big: bool)
    returns (r: nat, fine: bool)
    requires ShortPbufs(ps) && protoLen <= 0xffff && chksumLen <= 0xffff && |src| == |dst| == 4
    ensures r == 0xffff - Chksum(big, Covered(src + dst, proto, protoLen, Prefix(ps, chksumLen)))
    ensures fine <==> ps == [] || chksumLen == 0 || LeftAfterFirst(ps, chksumLen) < 0x7fff
  {
    hide Word32, Pair, Sum, FoldTwice, Fold, Covered, Prefix;
    var a, b := Word32(big, src[0], src[1], src[2], src[3]), Word32(big, dst[0], dst[1], dst[2], dst[3]);
    WordHalves(big, src[0], src[1], src[2], src[3]);
    WordHalves(big, dst[0], dst[1], dst[2], dst[3]);
    var acc := a % 0x10000 + a / 0x10000 + b % 0x10000 + b / 0x10000;
    AddressSum(big, src, dst);
    FoldTwiceIs(acc);
    acc, fine := SumPartial(ps, chksumLen, FoldTwice(acc), big, src + dst);
    r := AddProto(acc, proto, protoLen, big, src + dst, Prefix(ps, chksumLen));
  }

  // ---- storing a checksum

  /** inet_chksum */
  function InetChksum(big: bool, d: seq<Byte>): nat {
    0xffff - Chksum(big, d)
  }

  /** The host writes w to the two bytes at i. */
  function Store16(big: bool, d: seq<Byte>, i: nat, w: nat): (r: seq<Byte>)
    requires i + 1 < |d| && w <= 0xffff
    ensures |r| == |d|
  {
    if big then d[i := w / 256][i + 1 := w % 256] else d[i := w % 256][i + 1 := w / 256]
  }

  lemma {:induction false} StoreSum(big: bool, d: seq<Byte>, i: nat, w: nat)
    requires i + 1 < |d| && i % 2 == 0 && d[i] == d[i + 1] == 0 && w <= 0xffff
    ensures Sum(big, Store16(big, d, i, w)) == Sum(big, d) + w
    decreases i
  {
    var d' := Store16(big, d, i, w);
    if i == 0 {
      assert d'[2..] == d[2..];
    } else {
      assert d'[2..] == Store16(big, d[2..], i - 2, w);
      StoreSum(big, d[2..], i - 2, w);
    }
  }

  /** A sum and its complement add up to minus zero. */
  lemma ComplementAdds(s: nat)
    ensures Fold(s + (0xffff - Fold(s))) == 0xffff
  {
  }

  /** With its checksum stored in a field that was zero and starts at an even offset, a buffer
      has the checksum zero, whatever it holds. */
  lemma StoredChecksum(big: bool, d: seq<Byte>, i: nat)
    requires i + 1 < |d| && i % 2 == 0 && d[i] == d[i + 1] == 0
    ensures InetChksum(big, Store16(big, d, i, InetChksum(big, d))) == 0
  {
    hide Fold, Sum, Store16;
    StoreSum(big, d, i, InetChksum(big, d));
    ComplementAdds(Sum(big, d));
  }

  // ---- chksum of net.c

  /** chksum: 16-bit words on a little-endian host, carried around at every step. */
  method NetChksum(cp: seq<Byte>, cnt: nat) returns (r: nat)
    requires 2 * cnt <= |cp|
    ensures r == Chksum(false, cp[..2 * cnt])
  {
    hide Fold, Swap;
    ghost var d := cp[..2 * cnt];
    var i1: nat, k: nat := 0, 0;
    while k < cnt
      invariant k <= cnt && i1 <= 0xffff && Same(i1 + Sum(true, d[2 * k..]), Sum(true, d))
    {
      var i2 := Swap(Pair(false, cp[2 * k], cp[2 * k + 1]));
      SwapPair(cp[2 * k], cp[2 * k + 1]);
      ghost var was, rest := i1, Sum(true, d[2 * k + 2..]);
      i1 := (i1 + i2) % 0x10000;
      if i1 < i2 {
        i1 := i1 + 1;
      }
      AddFolds(was, i2);
      FoldSame(was + i2);
      SameAdd(i1, was + i2, rest, rest);
      assert d[2 * k..][2..] == d[2 * k + 2..];
      k := k + 1;
    }
    r := Swap(i1);
    FoldOf(i1);
    SwapChksum(true, d);
  }

  lemma SwapPair(a: Byte, b: Byte)
    ensures Swap(Pair(false, a, b)) == Pair(true, a, b)
  {
  }

  /** The header checksum that udp_send of net.c stores makes lwIP's check of the header succeed. */
  lemma NetHeaderAccepted(header: seq<Byte>)
    requires |header| == 20 && header[10] == header[11] == 0
    ensures InetChksum(false, Store16(false, header, 10, 0xffff - Chksum(false, header))) == 0
  {
    StoredChecksum(false, header, 10);
  }
}
