/** Names in DNS messages (sections 3.1 and 4.1.4 of RFC 1035): the encoder of dns_send,
    dns_compare_name and dns_skip_name. */
module DnsCodec {
  import opened Basics

  const DOT: Byte := 46

  const FAIL: nat := 0xFFFF

  /** The first two bits mark a compression pointer. */
  predicate IsPointer(b: Byte) {
    b >= 0xC0
  }

  /** pbuf_try_get_at: the byte, or -1 behind the end. */
  function Get(p: seq<Byte>, off: nat): int {
    if off < |p| then p[off] else -1
  }

  // ---- names

  /** Labels in wire format: each behind its length. */
  function Enc(ls: seq<seq<Byte>>): seq<Byte>
    requires forall i :: 0 <= i < |ls| ==> |ls[i]| < 256
  {
    if ls == [] then [] else [|ls[0]|] + ls[0] + Enc(ls[1..])
  }

  /** Labels as text. */
  function Join(ls: seq<seq<Byte>>): seq<Byte>
    requires ls != []
  {
    if |ls| == 1 then ls[0] else ls[0] + [DOT] + Join(ls[1..])
  }

  /** The length of the first label of a hostname. */
  function FirstLength(h: seq<Byte>): (n: nat)
    ensures n <= |h| && (n < |h| ==> h[n] == DOT) && DOT !in h[..n]
  {
    if h == [] || h[0] == DOT then 0
    else
      var n := FirstLength(h[1..]);
      assert h[..n + 1] == [h[0]] + h[1..][..n];
      n + 1
  }

  function Labels(h: seq<Byte>): (ls: seq<seq<Byte>>)
    ensures ls != [] && Join(ls) == h
    ensures forall i {:trigger ls[i]} :: 0 <= i < |ls| ==> DOT !in ls[i] && |ls[i]| <= |h|
    decreases |h|
  {
    var n := FirstLength(h);
    if n == |h| then (assert h[..n] == h; [h])
    else
      var rest := Labels(h[n + 1..]);
      assert h == h[..n] + [DOT] + h[n + 1..];
      [h[..n]] + rest
  }

  /** Labels a resolver may look up: not empty, and shorter than a compression pointer would allow. */
  predicate Proper(ls: seq<seq<Byte>>) {
    forall i {:trigger ls[i]} :: 0 <= i < |ls| ==> 0 < |ls[i]| < 192
  }

  /** Wire format and text differ by one byte in front and one behind. */
  lemma {:induction false} EncLength(ls: seq<seq<Byte>>)
    requires ls != [] && forall i :: 0 <= i < |ls| ==> |ls[i]| < 256
    ensures |Enc(ls)| == |Join(ls)| + 1
  {
    if |ls| > 1 { EncLength(ls[1..]); }
  }

  // ---- the encoder of dns_send

  /** A hostname in wire format, without the zero byte at its end. */
  function Wire(h: seq<Byte>): seq<Byte>
    requires |h| <= 255
  {
    Enc(Labels(h))
  }

  /** The conversion loop of dns_send for a name from the table: at most DNS_MAX_NAME_LENGTH - 1 bytes. */
  method Encode(h: seq<Byte>) returns (out: seq<Byte>)
    requires |h| <= 255
    ensures out == Wire(h) + [0] && |out| == |h| + 2
  {
    hide Wire, FirstLength;
    WireLength(h);
    out := [];
    var i: nat := 0;
    ghost var rest := Wire(h);
    assert h[0..] == h;
    var more := true;
    while more
      invariant i <= |h| && (more ==> rest == Wire(h[i..])) && (!more ==> rest == []) && out + rest == Wire(h)
      decreases |h| - i, more
    {
      var part := i;
      i := LabelEnd(h, part);
      var chunk := [i - part] + h[part..i];
      more := i < |h|;
      ghost var was := rest;
      rest := RestOf(h, part, i);
      assert was == chunk + rest by { WireSplit(h, part, i); }
      assert out + (chunk + rest) == (out + chunk) + rest;
      out := out + chunk;
      i := if more then i + 1 else i;
    }
    out := out + [0];
  }

  ghost function RestOf(h: seq<Byte>, part: nat, i: nat): seq<Byte>
    requires part <= i <= |h| <= 255
  {
    if i < |h| then Wire(h[i + 1..]) else []
  }

  lemma WireSplit(h: seq<Byte>, part: nat, i: nat)
    requires part <= i <= |h| <= 255 && i == part + FirstLength(h[part..])
    ensures Wire(h[part..]) == [i - part] + h[part..i] + RestOf(h, part, i)
  {
    hide Wire, FirstLength;
    var t, n := h[part..], i - part;
    assert t[..n] == h[part..i];
    if i < |h| {
      WireMore(t);
      assert t[n + 1..] == h[i + 1..];
    } else {
      WireLast(t);
      assert t == h[part..i];
    }
  }

  /** The inner loop: the end of the label that starts at `part`. */
  method LabelEnd(h: seq<Byte>, part: nat) returns (i: nat)
    requires part <= |h|
    ensures part <= i <= |h| && i == part + FirstLength(h[part..]) && h[part..i] == h[part..][..i - part]
  {
    i := part;
    while i < |h| && h[i] != DOT
      invariant part <= i <= |h| && part + FirstLength(h[part..]) == i + FirstLength(h[i..])
      decreases |h| - i
    {
      assert h[i..][1..] == h[i + 1..];
      i := i + 1;
    }
  }

  lemma WireLength(h: seq<Byte>)
    requires |h| <= 255
    ensures |Wire(h)| == |h| + 1
  {
    EncLength(Labels(h));
  }

  /** The first label of a name, and what is behind its dot. */
  lemma WireMore(h: seq<Byte>)
    requires |h| <= 255 && FirstLength(h) < |h|
    ensures var n := FirstLength(h); Wire(h) == [n] + h[..n] + Wire(h[n + 1..])
  {
  }

  lemma WireLast(h: seq<Byte>)
    requires |h| <= 255 && FirstLength(h) == |h|
    ensures Wire(h) == [|h|] + h
  {
    hide FirstLength;
    var ls: seq<seq<Byte>> := [h];
    assert Labels(h) == ls;
    EncOne(h);
  }

  lemma EncOne(l: seq<Byte>)
    requires |l| < 256
    ensures Enc([l]) == [|l|] + l
  {
  }

  // ---- dns_compare_name

  /** Offsets and lengths are u16_t. */
  predicate IsPbuf(p: seq<Byte>) {
    |p| <= 0xFFFF
  }

  /** The n bytes of p at off are the n bytes of the query text at q, up to letter case. */
  predicate LabelMatches(p: seq<Byte>, off: nat, query: nat -> Byte, q: nat, n: nat) {
    off + n <= |p| && forall j {:trigger p[j]} :: off <= j < off + n ==> Lower(query(q + (j - off))) == Lower(p[j])
  }

  /** What dns_compare_name returns. `query` is the memory its pointer leads to: it never looks for the text's end. */
  function Compare(p: seq<Byte>, query: nat -> Byte, q: nat, off: nat): nat
    decreases |p| - off
  {
    if off >= |p| || IsPointer(p[off]) || !LabelMatches(p, off + 1, query, q, p[off]) then FAIL
    else
      var end := off + 1 + p[off];
      if end >= |p| then FAIL else if p[end] == 0 then end + 1 else Compare(p, query, q + p[off] + 1, end)
  }

  method CompareName(query: nat -> Byte, p: seq<Byte>, start: nat) returns (r: int)
    requires IsPbuf(p) && start <= 0xFFFF
    ensures r == Compare(p, query, 0, start) <= 0xFFFF
  {
    var off, q: nat := start, 0;
    var n := 1;
    while n != 0
      invariant off <= 0xFFFF
      invariant n != 0 ==> Compare(p, query, 0, start) == Compare(p, query, q, off)
      invariant n == 0 ==> off < |p| && Compare(p, query, 0, start) == off + 1
      decreases n != 0, |p| - off
    {
      n := Get(p, off);
      if n < 0 || off == 0xFFFF {
        return FAIL;
      }
      if IsPointer(n) {
        return FAIL;
      }
      var same := CompareLabel(query, q, p, off + 1, n);
      if !same {
        return FAIL;
      }
      off, q := off + 1 + n, q + n + 1;
      n := Get(p, off);
      if n < 0 {
        return FAIL;
      }
    }
    r := if off == 0xFFFF then FAIL else off + 1;
  }

  /** The inner loop over the bytes of one label. */
  method CompareLabel(query: nat -> Byte, q: nat, p: seq<Byte>, off: nat, n: nat) returns (same: bool)
    requires IsPbuf(p) && off <= |p|
    ensures same == LabelMatches(p, off, query, q, n)
  {
    for k := 0 to n
      invariant LabelMatches(p, off, query, q, k)
    {
      var c := Get(p, off + k);
      if c < 0 {
        return false;
      }
      assert c == p[off + k];
      if Lower(query(q + k)) != Lower(c) {
        return false;
      }
    }
    same := true;
  }

  // ---- dns_skip_name

  /** What dns_skip_name returns. */
  function Skip(p: seq<Byte>, off: nat): nat
    decreases |p| - off
  {
    if off >= |p| then FAIL
    else if IsPointer(p[off]) then off + 2
    else
      var end := off + 1 + p[off];
      if end >= |p| then FAIL else if p[end] == 0 then end + 1 else Skip(p, end)
  }

  method SkipName(p: seq<Byte>, start: nat) returns (r: nat)
    requires IsPbuf(p) && start <= 0xFFFF
    ensures r == (if Skip(p, start) >= 0x10000 then FAIL else Skip(p, start))
  {
    var off: nat := start;
    var n := 1;
    while n != 0
      invariant off <= 0xFFFF
      invariant n != 0 ==> Skip(p, start) == Skip(p, off)
      invariant n == 0 ==> off < |p| && Skip(p, start) == off + 1
      decreases n != 0, |p| - off
    {
      n := Get(p, off);
      off := (off + 1) % 0x10000;
      if n < 0 || off == 0 {
        return FAIL;
      }
      if IsPointer(n) {
        break;
      }
      if off + n >= |p| {
        return FAIL;
      }
      off := off + n;
      n := Get(p, off);
    }
    r := if off == 0xFFFF then FAIL else off + 1;
  }

  // ---- round trips

  /** The query text holds the labels one after the other, up to letter case, with some byte between each two. */
  predicate TextMatches(query: nat -> Byte, q: nat, ls: seq<seq<Byte>>)
    decreases |ls|
  {
    ls == [] || (TextAt(query, q, ls[0]) && TextMatches(query, q + |ls[0]| + 1, ls[1..]))
  }

  predicate TextAt(query: nat -> Byte, q: nat, text: seq<Byte>) {
    forall i {:trigger text[i]} :: 0 <= i < |text| ==> Lower(query(q + i)) == Lower(text[i])
  }

  lemma LabelIn(pre: seq<Byte>, l: seq<Byte>, rest: seq<Byte>, query: nat -> Byte, q: nat)
    ensures LabelMatches(pre + l + rest, |pre|, query, q, |l|) <==> TextAt(query, q, l)
  {
    var p := pre + l + rest;
    if LabelMatches(p, |pre|, query, q, |l|) {
      forall i {:trigger l[i]} | 0 <= i < |l| ensures Lower(query(q + i)) == Lower(l[i]) {
        assert p[|pre| + i] == l[i];
      }
    }
    if TextAt(query, q, l) {
      forall j {:trigger p[j]} | |pre| <= j < |pre| + |l| ensures Lower(query(q + (j - |pre|))) == Lower(p[j]) {
        assert p[j] == l[j - |pre|];
      }
    }
  }

  /** Encoded labels with something in front and something behind. */
  function Message(pre: seq<Byte>, ls: seq<seq<Byte>>, tail: seq<Byte>): seq<Byte>
    requires forall i :: 0 <= i < |ls| ==> |ls[i]| < 256
  {
    pre + Enc(ls) + tail
  }

  /** The message seen from behind its first label. */
  lemma MessageStep(pre: seq<Byte>, ls: seq<seq<Byte>>, tail: seq<Byte>)
    requires ls != [] && Proper(ls) && tail != []
    ensures var p, l, n := Message(pre, ls, tail), ls[0], |ls[0]|;
            && p == (pre + [n]) + l + (Enc(ls[1..]) + tail) && p == Message(pre + [n] + l, ls[1..], tail)
            && |p| > |pre| + 1 + n && p[|pre|] == n
            && p[|pre| + 1 + n] == (if |ls| > 1 then |ls[1]| else tail[0])
            && |Enc(ls)| == 1 + n + |Enc(ls[1..])|
  {
    var l, n, e := ls[0], |ls[0]|, Enc(ls[1..]);
    assert Enc(ls) == [n] + l + e;
    Regroup(pre, [n], l, e, tail);
    var p := pre + [n] + l + (e + tail);
    assert p[|pre|] == n && p[|pre| + 1 + n] == (e + tail)[0];
    assert |ls| > 1 ==> e[0] == |ls[1]|;
  }

  lemma Regroup(pre: seq<Byte>, a: seq<Byte>, l: seq<Byte>, e: seq<Byte>, t: seq<Byte>)
    ensures pre + (a + l + e) + t == pre + a + l + (e + t) == pre + a + l + e + t
  {
  }

  /** An encoded name is accepted exactly when the query text holds its labels; then the offset behind it comes back. */
  lemma {:induction false} CompareEncoded(pre: seq<Byte>, ls: seq<seq<Byte>>, post: seq<Byte>, query: nat -> Byte, q: nat)
    requires ls != [] && Proper(ls)
    ensures Compare(Message(pre, ls, [0] + post), query, q, |pre|) ==
              if TextMatches(query, q, ls) then |pre| + |Enc(ls)| + 1 else FAIL
    decreases |ls|
  {
    hide Enc, Message;
    var l, n := ls[0], |ls[0]|;
    MessageStep(pre, ls, [0] + post);
    LabelIn(pre + [n], l, Enc(ls[1..]) + ([0] + post), query, q);
    if |ls| > 1 {
      CompareEncoded(pre + [n] + l, ls[1..], post, query, q + n + 1);
    } else {
      EncNone(ls[1..]);
    }
  }

  lemma EncNone(ls: seq<seq<Byte>>)
    requires ls == []
    ensures Enc(ls) == []
  {
  }

  /** dns_skip_name returns the offset behind every encoded name ... */
  lemma {:induction false} SkipEncoded(pre: seq<Byte>, ls: seq<seq<Byte>>, post: seq<Byte>)
    requires ls != [] && Proper(ls)
    ensures Skip(Message(pre, ls, [0] + post), |pre|) == |pre| + |Enc(ls)| + 1
    decreases |ls|
  {
    hide Enc, Message;
    var l, n := ls[0], |ls[0]|;
    MessageStep(pre, ls, [0] + post);
    if |ls| > 1 {
      SkipEncoded(pre + [n] + l, ls[1..], post);
    } else {
      EncNone(ls[1..]);
    }
  }

  /** ... and behind the compression pointer that any number of labels, also none, may end with. */
  lemma {:induction false} SkipCompressed(pre: seq<Byte>, ls: seq<seq<Byte>>, b: Byte, post: seq<Byte>)
    requires Proper(ls) && IsPointer(b)
    ensures Skip(Message(pre, ls, [b] + post), |pre|) == |pre| + |Enc(ls)| + 2
    decreases |ls|
  {
    var p := Message(pre, ls, [b] + post);
    if ls == [] {
      assert p[|pre|] == b;
    } else {
      hide Enc, Message;
      MessageStep(pre, ls, [b] + post);
      SkipCompressed(pre + [|ls[0]|] + ls[0], ls[1..], b, post);
    }
  }

  lemma {:induction false} TextOfLabels(query: nat -> Byte, q: nat, ls: seq<seq<Byte>>)
    requires ls != [] && TextAt(query, q, Join(ls))
    ensures TextMatches(query, q, ls)
    decreases |ls|
  {
    var t, n := Join(ls), |ls[0]|;
    forall i {:trigger ls[0][i]} | 0 <= i < n ensures Lower(query(q + i)) == Lower(ls[0][i]) {
      assert t[i] == ls[0][i];
    }
    if |ls| > 1 {
      var u := Join(ls[1..]);
      forall i {:trigger u[i]} | 0 <= i < |u| ensures Lower(query(q + n + 1 + i)) == Lower(u[i]) {
        assert t[n + 1 + i] == u[i];
        assert q + (n + 1 + i) == q + n + 1 + i;
      }
      TextOfLabels(query, q + n + 1, ls[1..]);
    }
  }

  lemma WireMessage(h: seq<Byte>, pre: seq<Byte>, post: seq<Byte>)
    requires |h| <= 255
    ensures pre + (Wire(h) + [0]) + post == Message(pre, Labels(h), [0] + post)
  {
    hide Enc, Labels;
    Assoc(pre, Wire(h), [0], post);
  }

  lemma Assoc(a: seq<Byte>, b: seq<Byte>, c: seq<Byte>, d: seq<Byte>)
    ensures a + (b + c) + d == a + b + (c + d)
  {
  }

  lemma LabelFacts(h: seq<Byte>)
    requires |h| <= 255
    ensures Labels(h) != [] && Join(Labels(h)) == h && |Enc(Labels(h))| == |h| + 1
  {
  }

  /** What dns_send writes for a hostname, dns_compare_name recognises in a reply whatever the case of its
      letters, and both readers find its end: strlen + 2 bytes further on. */
  lemma RoundTrip(h: seq<Byte>, pre: seq<Byte>, post: seq<Byte>, query: nat -> Byte)
    requires |h| <= 255 && Proper(Labels(h)) && TextAt(query, 0, h)
    ensures var p := pre + (Wire(h) + [0]) + post;
            Compare(p, query, 0, |pre|) == |pre| + |h| + 2 && Skip(p, |pre|) == |pre| + |h| + 2
  {
    hide Wire, Labels, Compare, Skip, Message, Enc, Join;
    var ls := Labels(h);
    WireMessage(h, pre, post);
    WireLength(h);
    assert |Enc(ls)| == |h| + 1 && Join(ls) == h by { LabelFacts(h); }
    TextOfLabels(query, 0, ls);
    CompareEncoded(pre, ls, post, query, 0);
    SkipEncoded(pre, ls, post);
  }

  /** A name accepted need not be the one asked for: the byte between two labels of the text is never looked at. */
  lemma DotNotChecked()
    ensures var asked: seq<Byte>, wire := [97, 120, 98], Enc([[97], [98]]) + [0];
            && asked != Join([[97], [98]])
            && forall query: nat -> Byte :: TextAt(query, 0, asked) ==> Compare(wire, query, 0, 0) == |wire|
  {
    var ls: seq<seq<Byte>> := [[97], [98]];
    var asked: seq<Byte> := [97, 120, 98];
    assert Join(ls)[1] == DOT;
    forall query: nat -> Byte | TextAt(query, 0, asked) ensures Compare(Enc(ls) + [0], query, 0, 0) == |Enc(ls)| + 1 {
      assert asked[0] == 97 && asked[2] == 98;
      assert ls[1..] == [[98]] && ls[1..][1..] == [];
      assert TextAt(query, 0, ls[0]) && TextAt(query, 2, ls[1]);
      assert TextMatches(query, 2, ls[1..]) && TextMatches(query, 0, ls);
      CompareEncoded([], ls, [], query, 0);
      assert Message([], ls, [0] + []) == Enc(ls) + [0];
    }
  }

  /** The root name, a single zero byte, is taken for an empty label: it is never skipped by one byte. */
  lemma {:induction false} RootMisread(p: seq<Byte>, start: nat)
    requires start < |p| && p[start] == 0
    ensures Skip(p, start) == FAIL || Skip(p, start) > start + 1
  {
    if start + 1 < |p| && p[start + 1] != 0 { SkipMoves(p, start + 1); }
  }

  lemma {:induction false} SkipMoves(p: seq<Byte>, off: nat)
    ensures Skip(p, off) == FAIL || Skip(p, off) > off + 1
    decreases |p| - off
  {
    if off < |p| && !IsPointer(p[off]) && off + 1 + p[off] < |p| && p[off + 1 + p[off]] != 0 {
      SkipMoves(p, off + 1 + p[off]);
    }
  }
}
