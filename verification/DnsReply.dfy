/** What dns_recv makes of the bytes of a packet (section 4 of RFC 1035). */
module DnsReply {
  import opened Basics
  import opened DnsModel
  import opened DnsCodec

  const HEADER: nat := 12
  const QUERY: nat := 4
  const ANSWER: nat := 10
  const CLASS_IN: nat := 1

  // ---- numbers in network byte order

  function U16(n: nat): (r: seq<Byte>)
    requires n < 0x10000
    ensures |r| == 2
  {
    [n / 256, n % 256]
  }

  function U32(n: nat): (r: seq<Byte>)
    requires n < 0x1_0000_0000
    ensures |r| == 4
  {
    U16(n / 0x10000) + U16(n % 0x10000)
  }

  function Get16(p: seq<Byte>, off: nat): (n: nat)
    requires off + 2 <= |p|
    ensures n < 0x10000
  {
    p[off] as int * 256 + p[off + 1] as int
  }

  function Get32(p: seq<Byte>, off: nat): nat
    requires off + 4 <= |p|
  {
    Get16(p, off) * 0x10000 + Get16(p, off + 2)
  }

  /** An address as a number. */
  function Number(bytes: seq<Byte>): nat {
    if bytes == [] then 0 else Number(bytes[..|bytes| - 1]) * 256 + bytes[|bytes| - 1]
  }

  /** Addresses of one family that are the same number are the same bytes. */
  lemma {:induction false} NumberTells(a: seq<Byte>, b: seq<Byte>)
    requires |a| == |b| && Number(a) == Number(b)
    ensures a == b
    decreases |a|
  {
    if a != [] {
      var n := |a| - 1;
      NumberTells(a[..n], b[..n]);
      assert a == a[..n] + [a[n]] && b == b[..n] + [b[n]];
    }
  }

  // ---- dns_recv

  function TypeOf(v6: bool): nat { if v6 then 28 else 1 }

  function AddressLength(v6: bool): nat { if v6 then 16 else 4 }

  /** The offset behind a name, in 16 bits. */
  function SkipU16(p: seq<Byte>, off: nat): nat {
    if Skip(p, off) >= 0x10000 then FAIL else Skip(p, off)
  }

  /** What the loop over n answers from `off` on comes to. */
  function Answers(p: seq<Byte>, off: nat, n: nat, v6: bool): Reply
    decreases n
  {
    if n == 0 || off >= |p| then NothingUseful
    else
      var o := SkipU16(p, off);
      if o == FAIL || o + ANSWER > |p| then Ignored
      else
        var data, len := o + ANSWER, Get16(p, o + 8);
        if Get16(p, o + 2) == CLASS_IN && Get16(p, o) == TypeOf(v6) && len == AddressLength(v6) then
          if data + len > |p| then Ignored else Found(Get32(p, o + 4), Number(p[data..data + len]), v6)
        else if data + len > 0xFFFF then Ignored
        else Answers(p, data + len, n - 1, v6)
  }

  /** The packet is a response to this entry's question, and the question ends here. */
  function QuestionEnd(p: seq<Byte>, e: Entry, behind: nat -> Byte, fromServer: bool): Option<nat>
    requires |p| >= HEADER + QUERY
  {
    var o := Compare(p, Text(e.name, behind), 0, HEADER);
    if p[2] < 0x80 || Get16(p, 4) != 1 || !fromServer || o == FAIL || o + QUERY > |p| then None
    else if Get16(p, o + 2) != CLASS_IN || Get16(p, o) != TypeOf(WantsV6(e.addrType)) then None
    else Some(o + QUERY)
  }

  /** The memory from the entry's name on. */
  function Text(name: seq<Byte>, behind: nat -> Byte): nat -> Byte {
    (i: nat) => if i < |name| then name[i] else behind(i - |name|)
  }

  /** What a packet with the entry's transaction id means. */
  function Understood(p: seq<Byte>, e: Entry, behind: nat -> Byte, fromServer: bool): Reply
    requires |p| >= HEADER + QUERY
  {
    var o := QuestionEnd(p, e, behind, fromServer);
    if o.None? then Ignored
    else if p[3] % 16 != 0 then Failure
    else Answers(p, o.value, Get16(p, 6), WantsV6(e.addrType))
  }

  /** The loop over the answers. */
  method ReadAnswers(p: seq<Byte>, start: nat, n: nat, v6: bool) returns (r: Reply)
    requires IsPbuf(p) && start <= 0xFFFF
    ensures r == Answers(p, start, n, v6)
  {
    hide Skip, Number, Get16, Get32;
    var idx: nat, nanswers: nat := start, n;
    while nanswers > 0 && idx < |p|
      invariant idx <= 0xFFFF && Answers(p, start, n, v6) == Answers(p, idx, nanswers, v6)
      decreases nanswers
    {
      idx := SkipName(p, idx);
      if idx == FAIL {
        return Ignored;
      }
      if idx + ANSWER > |p| {
        return Ignored;
      }
      var rtype, cls, ttl, len := Get16(p, idx), Get16(p, idx + 2), Get32(p, idx + 4), Get16(p, idx + 8);
      idx := idx + ANSWER;
      if cls == CLASS_IN && rtype == TypeOf(v6) && len == AddressLength(v6) {
        if idx + len > |p| {
          return Ignored;
        }
        return Found(ttl, Number(p[idx..idx + len]), v6);
      }
      if idx + len > 0xFFFF {
        return Ignored;
      }
      idx := idx + len;
      nanswers := nanswers - 1;
    }
    r := NothingUseful;
  }

  /** dns_recv for an entry with the packet's id, up to what it then does. */
  method ReadReply(p: seq<Byte>, e: Entry, behind: nat -> Byte, fromServer: bool) returns (r: Reply)
    requires IsPbuf(p) && |p| >= HEADER + QUERY
    ensures r == Understood(p, e, behind, fromServer)
  {
    if p[2] < 0x80 || Get16(p, 4) != 1 || !fromServer {
      return Ignored;
    }
    var idx := CompareName(Text(e.name, behind), p, HEADER);
    if idx == FAIL || idx + QUERY > |p| {
      return Ignored;
    }
    if Get16(p, idx + 2) != CLASS_IN || Get16(p, idx) != TypeOf(WantsV6(e.addrType)) {
      return Ignored;
    }
    if p[3] % 16 != 0 {
      return Failure;
    }
    r := ReadAnswers(p, idx + QUERY, Get16(p, 6), WantsV6(e.addrType));
  }

  // ---- what servers send

  /** A name: some labels, and then a zero byte or a compression pointer. */
  datatype Name = Plain(labels: seq<seq<Byte>>) | Compressed(labels: seq<seq<Byte>>, hi: Byte, lo: Byte)

  datatype Record = Record(name: Name, rtype: nat, cls: nat, ttl: nat, data: seq<Byte>)

  predicate NameOk(n: Name) {
    Proper(n.labels) && (n.Plain? ==> n.labels != []) && (n.Compressed? ==> IsPointer(n.hi))
  }

  predicate RecordOk(r: Record) {
    NameOk(r.name) && r.rtype < 0x10000 && r.cls < 0x10000 && r.ttl < 0x1_0000_0000 && |r.data| < 0x10000
  }

  ghost predicate AllOk(rs: seq<Record>) {
    forall i {:trigger rs[i]} :: 0 <= i < |rs| ==> RecordOk(rs[i])
  }

  function WireName(n: Name): seq<Byte>
    requires NameOk(n)
  {
    Enc(n.labels) + Terminator(n)
  }

  function Terminator(n: Name): seq<Byte> {
    if n.Plain? then [0] else [n.hi, n.lo]
  }

  function Fields(r: Record): (f: seq<Byte>)
    requires RecordOk(r)
    ensures |f| == ANSWER
  {
    U16(r.rtype) + U16(r.cls) + U32(r.ttl) + U16(|r.data|)
  }

  function WireRecord(r: Record): seq<Byte>
    requires RecordOk(r)
  {
    WireName(r.name) + Fields(r) + r.data
  }

  ghost function WireRecords(rs: seq<Record>): seq<Byte>
    requires AllOk(rs)
  {
    if rs == [] then [] else WireRecord(rs[0]) + WireRecords(rs[1..])
  }

  predicate Useful(r: Record, v6: bool) {
    r.cls == CLASS_IN && r.rtype == TypeOf(v6) && |r.data| == AddressLength(v6)
  }

  /** The first address of the right family. */
  function First(rs: seq<Record>, v6: bool): Reply {
    if rs == [] then NothingUseful
    else if Useful(rs[0], v6) then Found(rs[0].ttl, Number(rs[0].data), v6)
    else First(rs[1..], v6)
  }

  // ---- reading back

  lemma Read16(pre: seq<Byte>, n: nat, post: seq<Byte>)
    requires n < 0x10000
    ensures Get16(pre + U16(n) + post, |pre|) == n
  {
  }

  lemma FieldsRead(p: seq<Byte>, o: nat, r: Record, rest: seq<Byte>, pre: seq<Byte>)
    requires RecordOk(r) && p == pre + Fields(r) + rest && o == |pre|
    ensures o + ANSWER <= |p|
    ensures Get16(p, o) == r.rtype && Get16(p, o + 2) == r.cls && Get32(p, o + 4) == r.ttl && Get16(p, o + 8) == |r.data|
  {
    var f := Fields(r);
    assert forall i {:trigger f[i]} :: 0 <= i < ANSWER ==> p[o + i] == f[i];
  }

  /** The offset behind a name as a server may write it. */
  lemma SkipWireName(pre: seq<Byte>, n: Name, post: seq<Byte>)
    requires NameOk(n)
    ensures Skip(pre + WireName(n) + post, |pre|) == |pre| + |WireName(n)|
  {
    hide Skip;
    match n {
      case Plain(labels) =>
        Assoc(pre, Enc(labels), [0], post);
        SkipEncoded(pre, labels, post);
      case Compressed(labels, hi, lo) =>
        Assoc(pre, Enc(labels), [hi, lo], post);
        assert [hi, lo] + post == [hi] + ([lo] + post);
        SkipCompressed(pre, labels, hi, [lo] + post);
    }
  }

  /** Of all names with proper labels, exactly the root name is not skipped as it should be. */
  lemma SkippedIff(pre: seq<Byte>, n: Name, post: seq<Byte>)
    requires Proper(n.labels) && (n.Compressed? ==> IsPointer(n.hi)) && post != []
    requires IsPbuf(pre + (Enc(n.labels) + Terminator(n)) + post)
    ensures var w := Enc(n.labels) + Terminator(n); Skip(pre + w + post, |pre|) == |pre| + |w| <==> n != Plain([])
  {
    hide Skip;
    if n == Plain([]) {
      assert Enc(n.labels) + Terminator(n) == [0];
      RootMisread(pre + [0] + post, |pre|);
    } else {
      SkipWireName(pre, n, post);
    }
  }

  lemma RecordSplit(pre: seq<Byte>, r: Record, rest: seq<Byte>)
    requires RecordOk(r)
    ensures var w := WireName(r.name);
            && pre + (WireRecord(r) + rest) == pre + w + (Fields(r) + r.data + rest)
            && pre + (WireRecord(r) + rest) == (pre + w) + Fields(r) + (r.data + rest)
            && pre + (WireRecord(r) + rest) == (pre + w + Fields(r)) + r.data + rest
            && pre + (WireRecord(r) + rest) == (pre + WireRecord(r)) + rest
  {
  }

  /** The loop understands encoded records as what they say: the first address of the right family. */
  lemma {:induction false} AnswersEncoded(pre: seq<Byte>, rs: seq<Record>, post: seq<Byte>, v6: bool)
    requires AllOk(rs) && IsPbuf(pre + WireRecords(rs) + post)
    ensures Answers(pre + WireRecords(rs) + post, |pre|, |rs|, v6) == First(rs, v6)
    decreases |rs|
  {
    if rs != [] {
      var r, rest := rs[0], WireRecords(rs[1..]) + post;
      var p := pre + WireRecords(rs) + post;
      Split3(pre, WireRecord(r), WireRecords(rs[1..]), post);
      hide WireRecords;
      OneAnswer(pre, r, rest, |rs|, v6);
      if !Useful(r, v6) {
        Split3(pre, WireRecord(r), WireRecords(rs[1..]), post);
        AnswersEncoded(pre + WireRecord(r), rs[1..], post, v6);
      }
    }
  }

  lemma Split3(a: seq<Byte>, b: seq<Byte>, c: seq<Byte>, d: seq<Byte>)
    ensures a + (b + c) + d == a + (b + (c + d)) == (a + b) + c + d
  {
  }

  lemma OneAnswer(pre: seq<Byte>, r: Record, rest: seq<Byte>, n: nat, v6: bool)
    requires RecordOk(r) && n > 0 && IsPbuf(pre + (WireRecord(r) + rest))
    ensures var p := pre + (WireRecord(r) + rest);
            Answers(p, |pre|, n, v6) ==
              if Useful(r, v6) then Found(r.ttl, Number(r.data), v6) else Answers(p, |pre + WireRecord(r)|, n - 1, v6)
  {
    hide Number, Skip, Answers, WireRecord, WireName, Fields;
    var p, w := pre + (WireRecord(r) + rest), WireName(r.name);
    RecordSplit(pre, r, rest);
    SkipWireName(pre, r.name, Fields(r) + r.data + rest);
    var o := |pre| + |w|;
    FieldsRead(p, o, r, r.data + rest, pre + w);
    assert |WireRecord(r)| == |w| + ANSWER + |r.data| by { RecordLength(r); }
    assert p[o + ANSWER..o + ANSWER + |r.data|] == r.data;
    AnswerAt(p, |pre|, o, n, v6);
  }

  lemma RecordLength(r: Record)
    requires RecordOk(r)
    ensures |WireRecord(r)| == |WireName(r.name)| + ANSWER + |r.data|
  {
  }

  /** One round of the loop, from the values it reads. */
  lemma AnswerAt(p: seq<Byte>, off: nat, o: nat, n: nat, v6: bool)
    requires n > 0 && off < |p| && IsPbuf(p) && o == Skip(p, off) && o + ANSWER <= |p|
    requires o + ANSWER + Get16(p, o + 8) <= |p|
    ensures var data, len := o + ANSWER, Get16(p, o + 8);
            Answers(p, off, n, v6) ==
              if Get16(p, o + 2) == CLASS_IN && Get16(p, o) == TypeOf(v6) && len == AddressLength(v6)
              then Found(Get32(p, o + 4), Number(p[data..data + len]), v6)
              else Answers(p, data + len, n - 1, v6)
  {
    hide Number, Skip, Get32, Get16;
  }

  /** counts: of the records behind the answers, which nobody looks at. */
  function Header(id: nat, flags1: Byte, flags2: Byte, n: nat, counts: seq<Byte>): (h: seq<Byte>)
    requires id < 0x10000 && n < 0x10000 && |counts| == 4
    ensures |h| == HEADER && Get16(h, 0) == id && h[2] == flags1 && h[3] == flags2 && Get16(h, 4) == 1 && Get16(h, 6) == n
  {
    U16(id) + [flags1, flags2] + U16(1) + U16(n) + counts
  }

  /** A reply: id and flags, the question, some answers, and whatever follows them. */
  ghost function Packet(h: seq<Byte>, question: seq<Byte>, rtype: nat, rs: seq<Record>, post: seq<Byte>): seq<Byte>
    requires |question| <= 255 && rtype < 0x10000 && AllOk(rs)
  {
    h + (Wire(question) + [0]) + (U16(rtype) + U16(CLASS_IN) + (WireRecords(rs) + post))
  }

  lemma TextOfName(name: seq<Byte>, behind: nat -> Byte, question: seq<Byte>)
    requires SameName(question, name)
    ensures TextAt(Text(name, behind), 0, question)
  {
  }

  /** The header of a packet is what is in front. */
  lemma HeaderRead(h: seq<Byte>, rest: seq<Byte>)
    requires |h| == HEADER
    ensures var p := h + rest;
            && Get16(p, 0) == Get16(h, 0) && p[2] == h[2] && p[3] == h[3] && Get16(p, 4) == Get16(h, 4) && Get16(p, 6) == Get16(h, 6)
  {
  }

  lemma PacketSplit(h: seq<Byte>, q: seq<Byte>, a: seq<Byte>, b: seq<Byte>, rest: seq<Byte>)
    requires |a| == |b| == 2
    ensures var p := h + q + (a + b + rest);
            && p == h + (q + (a + b + rest)) && p == (h + q) + a + (b + rest) && p == (h + q + a) + b + rest && p == (h + q + a + b) + rest
  {
  }

  /** A reply from the server asked, with the name as it was asked for up to letter case and the type asked for, is
      understood as what its answers say; or as a failure if it reports one. */
  lemma ReplyUnderstood(e: Entry, behind: nat -> Byte, id: nat, flags1: Byte, flags2: Byte, counts: seq<Byte>,
                        question: seq<Byte>, rs: seq<Record>, post: seq<Byte>)
    requires id < 0x10000 && flags1 >= 0x80 && |counts| == 4 && |rs| < 0x10000 && AllOk(rs)
    requires |question| <= 255 && SameName(question, e.name) && Proper(Labels(question))
    requires IsPbuf(Packet(Header(id, flags1, flags2, |rs|, counts), question, TypeOf(WantsV6(e.addrType)), rs, post))
    ensures var p := Packet(Header(id, flags1, flags2, |rs|, counts), question, TypeOf(WantsV6(e.addrType)), rs, post);
            && |p| >= HEADER + QUERY && Get16(p, 0) == id
            && Understood(p, e, behind, true) == if flags2 % 16 != 0 then Failure else First(rs, WantsV6(e.addrType))
  {
    hide Wire, WireRecords, Compare, Answers, First, Labels, U16, Header;
    var v6 := WantsV6(e.addrType);
    var h, q, body := Header(id, flags1, flags2, |rs|, counts), Wire(question) + [0], WireRecords(rs) + post;
    var a, b := U16(TypeOf(v6)), U16(CLASS_IN);
    var p := Packet(h, question, TypeOf(v6), rs, post);
    PacketSplit(h, q, a, b, body);
    HeaderRead(h, q + (a + b + body));
    TextOfName(e.name, behind, question);
    RoundTrip(question, h, a + b + body, Text(e.name, behind));
    WireLength(question);
    var o := HEADER + |question| + 2;
    Read16(h + q, TypeOf(v6), b + body);
    Read16(h + q + a, CLASS_IN, body);
    assert QuestionEnd(p, e, behind, true) == Some(o + QUERY);
    assert p == (h + q + a + b) + WireRecords(rs) + post;
    AnswersEncoded(h + q + a + b, rs, post, v6);
  }

  // ---- what a name that was accepted says

  /** The bytes between the labels in the query text are dots. */
  predicate Dotted(query: nat -> Byte, q: nat, ls: seq<seq<Byte>>)
    decreases |ls|
  {
    |ls| <= 1 || (query(q + |ls[0]|) == DOT && Dotted(query, q + |ls[0]| + 1, ls[1..]))
  }

  lemma {:induction false} TextIsJoin(query: nat -> Byte, q: nat, ls: seq<seq<Byte>>)
    requires ls != [] && TextMatches(query, q, ls)
    ensures TextAt(query, q, Join(ls)) <==> Dotted(query, q, ls)
    decreases |ls|
  {
    if |ls| > 1 {
      var n, rest, t := |ls[0]|, Join(ls[1..]), Join(ls);
      TextIsJoin(query, q + n + 1, ls[1..]);
      if TextAt(query, q, t) {
        assert t[n] == DOT && Lower(query(q + n)) == Lower(DOT);
        forall i {:trigger rest[i]} | 0 <= i < |rest| ensures Lower(query(q + n + 1 + i)) == Lower(rest[i]) {
          assert t[n + 1 + i] == rest[i] && q + (n + 1 + i) == q + n + 1 + i;
        }
      }
      if Dotted(query, q, ls) {
        forall i {:trigger t[i]} | 0 <= i < |t| ensures Lower(query(q + i)) == Lower(t[i]) {
          if i < n {
            assert t[i] == ls[0][i];
          } else if i > n {
            assert t[i] == rest[i - n - 1] && q + n + 1 + (i - n - 1) == q + i;
          }
        }
      }
    }
  }

  /** A name that is accepted is the one asked for exactly if it is as long and the text has dots where its labels end. */
  lemma SpelledIff(h: seq<Byte>, behind: nat -> Byte, ls: seq<seq<Byte>>)
    requires ls != [] && TextMatches(Text(h, behind), 0, ls)
    ensures SameName(Join(ls), h) <==> |Join(ls)| == |h| && Dotted(Text(h, behind), 0, ls)
  {
    hide Join, Dotted, TextMatches;
    TextIsJoin(Text(h, behind), 0, ls);
    var t := Join(ls);
    if |t| == |h| {
      assert SameName(t, h) <==> TextAt(Text(h, behind), 0, t) by {
        if TextAt(Text(h, behind), 0, t) {
          forall i | 0 <= i < |t| ensures Lower(t[i]) == Lower(h[i]) { assert Text(h, behind)(0 + i) == h[i]; }
        }
      }
    }
  }

  /** In particular, every beginning of the name asked for is accepted as a name of one label. */
  lemma BeginningAccepted(h: seq<Byte>, behind: nat -> Byte, n: nat)
    requires 0 < n < |h| && n < 192
    ensures Compare(Enc([h[..n]]) + [0], Text(h, behind), 0, 0) == n + 2 && !SameName(Join([h[..n]]), h)
  {
    var ls: seq<seq<Byte>> := [h[..n]];
    hide Compare;
    assert TextAt(Text(h, behind), 0, ls[0]);
    assert ls[1..] == [] && TextMatches(Text(h, behind), 0, ls);
    CompareEncoded([], ls, [], Text(h, behind), 0);
    assert Message([], ls, [0] + []) == Enc(ls) + [0];
    EncOne(h[..n]);
  }

  /** Whatever is accepted, encoded labels stand there, and the query text holds them. */
  lemma {:induction false} CompareMeans(p: seq<Byte>, query: nat -> Byte, q: nat, off: nat) returns (ls: seq<seq<Byte>>)
    requires Compare(p, query, q, off) != FAIL
    ensures ls != [] && (forall i :: 0 <= i < |ls| ==> |ls[i]| < 192) && TextMatches(query, q, ls)
    ensures off + |Enc(ls)| < |p| && p[off..off + |Enc(ls)|] == Enc(ls) && p[off + |Enc(ls)|] == 0
    ensures Compare(p, query, q, off) == off + |Enc(ls)| + 1
    decreases |p| - off
  {
    hide Enc, LabelMatches;
    var n := p[off];
    var end := off + 1 + n;
    LabelText(p, off + 1, query, q, n);
    var l := p[off + 1..end];
    var rest: seq<seq<Byte>> := [];
    if p[end] != 0 {
      rest := CompareMeans(p, query, q + n + 1, end);
    }
    ls := [l] + rest;
    assert ls[1..] == rest && TextMatches(query, q + n + 1, rest);
    EncCons(l, rest);
    assert p[off..end + |Enc(rest)|] == [n] + l + p[end..end + |Enc(rest)|];
  }

  lemma LabelText(p: seq<Byte>, off: nat, query: nat -> Byte, q: nat, n: nat)
    requires LabelMatches(p, off, query, q, n)
    ensures off + n <= |p| && TextAt(query, q, p[off..off + n])
  {
    var l := p[off..off + n];
    forall i {:trigger l[i]} | 0 <= i < |l| ensures Lower(query(q + i)) == Lower(l[i]) {
      assert p[off + i] == l[i];
    }
  }

  lemma EncCons(l: seq<Byte>, rest: seq<seq<Byte>>)
    requires |l| < 256 && forall i :: 0 <= i < |rest| ==> |rest[i]| < 256
    ensures Enc([l] + rest) == [|l|] + l + Enc(rest) && (rest == [] ==> Enc(rest) == [])
  {
    assert ([l] + rest)[1..] == rest;
  }

  // ---- what an address that was found says

  /** Where the fields of record k are, when records are skipped from `off` on. */
  function RecordStart(p: seq<Byte>, off: nat, k: nat): Option<nat>
    decreases k
  {
    var o := SkipU16(p, off);
    if off >= |p| || o == FAIL || o + ANSWER > |p| then None
    else if k == 0 then Some(o)
    else if o + ANSWER + Get16(p, o + 8) > 0xFFFF then None
    else RecordStart(p, o + ANSWER + Get16(p, o + 8), k - 1)
  }

  /** The record whose fields are at o holds an address of this family. */
  predicate UsefulAt(p: seq<Byte>, o: nat, v6: bool) {
    o + ANSWER <= |p| && Get16(p, o) == TypeOf(v6) && Get16(p, o + 2) == CLASS_IN && Get16(p, o + 8) == AddressLength(v6)
  }

  /** It holds this time to live and this address. */
  predicate AddressAt(p: seq<Byte>, o: nat, v6: bool, r: Reply) {
    && UsefulAt(p, o, v6) && r.Found? && o + ANSWER + AddressLength(v6) <= |p|
    && r.ttl == Get32(p, o + 4) && r.addr == Number(p[o + ANSWER..o + ANSWER + AddressLength(v6)]) && r.v6 == v6
  }

  lemma {:induction false} FoundIn(p: seq<Byte>, off: nat, n: nat, v6: bool) returns (k: nat, o: nat)
    requires Answers(p, off, n, v6).Found?
    ensures k < n && RecordStart(p, off, k) == Some(o) && o >= off && AddressAt(p, o, v6, Answers(p, off, n, v6))
    ensures forall m: nat {:trigger RecordStart(p, off, m)} :: m < k ==> RecordStart(p, off, m).Some? && !UsefulAt(p, RecordStart(p, off, m).value, v6)
    decreases n
  {
    hide Number, Skip, Get16, Get32;
    o := SkipU16(p, off);
    SkipForward(p, off);
    var len := Get16(p, o + 8);
    if Get16(p, o + 2) == CLASS_IN && Get16(p, o) == TypeOf(v6) && len == AddressLength(v6) {
      k := 0;
    } else {
      var next := o + ANSWER + len;
      var k1, o1 := FoundIn(p, next, n - 1, v6);
      forall m: nat {:trigger RecordStart(p, off, m)} | m < k1 + 1
        ensures RecordStart(p, off, m).Some? && !UsefulAt(p, RecordStart(p, off, m).value, v6)
      {
        if m > 0 { assert RecordStart(p, off, m) == RecordStart(p, next, m - 1); }
      }
      k, o := k1 + 1, o1;
    }
  }

  lemma SkipForward(p: seq<Byte>, off: nat)
    requires off < |p|
    ensures Skip(p, off) == FAIL || Skip(p, off) > off
  {
    SkipMoves(p, off);
  }

  /** Whatever a packet holds, an address is taken from it only if it is a response without error from the server
      asked, whose question holds labels that stand in the text of the name asked for, and the type and class asked
      for; the address is that of the first record behind the question with the family asked for, among as many
      records as the header announces. */
  lemma FoundMeans(p: seq<Byte>, e: Entry, behind: nat -> Byte, fromServer: bool) returns (ls: seq<seq<Byte>>, k: nat, o: nat)
    requires |p| >= HEADER + QUERY && Understood(p, e, behind, fromServer).Found?
    ensures fromServer && p[2] >= 0x80 && p[3] % 16 == 0 && Get16(p, 4) == 1
    ensures ls != [] && (forall i :: 0 <= i < |ls| ==> |ls[i]| < 192) && TextMatches(Text(e.name, behind), 0, ls)
    ensures var q := HEADER + |Enc(ls)| + 1;
            && q + QUERY <= |p| && p[HEADER..q] == Enc(ls) + [0] && Get16(p, q) == TypeOf(WantsV6(e.addrType)) && Get16(p, q + 2) == CLASS_IN
            && k < Get16(p, 6) && RecordStart(p, q + QUERY, k) == Some(o) && o >= q + QUERY
            && AddressAt(p, o, WantsV6(e.addrType), Understood(p, e, behind, fromServer))
            && (forall m: nat {:trigger RecordStart(p, q + QUERY, m)} :: m < k ==>
                  RecordStart(p, q + QUERY, m).Some? && !UsefulAt(p, RecordStart(p, q + QUERY, m).value, WantsV6(e.addrType)))
  {
    hide Enc, Compare, Answers, RecordStart, AddressAt, TextMatches, UsefulAt;
    ls := CompareMeans(p, Text(e.name, behind), 0, HEADER);
    var q := HEADER + |Enc(ls)| + 1;
    assert p[HEADER..q] == p[HEADER..q - 1] + [p[q - 1]];
    k, o := FoundIn(p, q + QUERY, Get16(p, 6), WantsV6(e.addrType));
  }
}
