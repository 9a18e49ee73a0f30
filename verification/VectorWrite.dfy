/** Writing several buffers to a TCP connection in rounds: lwip_netconn_do_writemore and
    the size computation of netconn_write_vectors_partly. */
module VectorWrite {
  import opened Basics
  import opened Errors

  const U16_MAX: nat := 0xffff
  /** The number of values of size_t. */
  const SIZE_LIMIT: nat := 0x1_0000_0000

  function Concat(vs: seq<seq<Byte>>): seq<Byte> {
    if vs == [] then [] else vs[0] + Concat(vs[1..])
  }

  // ---- how much there is to write

  /** The loop of netconn_write_vectors_partly: the total size, cut to SSIZE_MAX, unless it overflows size_t. */
  method TotalSize(vs: seq<seq<Byte>>) returns (size: Option<nat>)
    requires forall i :: 0 <= i < |vs| ==> |vs[i]| < SIZE_LIMIT
    ensures size.None? <==> |Concat(vs)| >= SIZE_LIMIT
    ensures size.Some? ==> size.value == if |Concat(vs)| > SSIZE_MAX then SSIZE_MAX else |Concat(vs)|
  {
    var total: nat := 0;
    for i := 0 to |vs|
      invariant total + |Concat(vs[i..])| == |Concat(vs)| && total < SIZE_LIMIT
    {
      assert vs[i..][1..] == vs[i + 1..];
      var sum := (total + |vs[i]|) % SIZE_LIMIT;
      if sum < |vs[i]| {
        return None;
      }
      total := sum;
    }
    size := Some(if total > SSIZE_MAX then SSIZE_MAX else total);
  }

  // ---- one round

  /** The fields of an api_msg for writing (vi stands for the vector pointer), and what tcp_write was given. */
  datatype Msg = Msg(vectors: seq<seq<Byte>>, vi: nat, cnt: nat, vecOff: nat, offset: nat, len: nat, sent: seq<Byte>)

  ghost predicate Inv(m: Msg) {
    && m.vi < |m.vectors| && m.vecOff <= |m.vectors[m.vi]| && m.len == |Concat(m.vectors)|
    && (m.cnt > 0 ==> m.vi + m.cnt == |m.vectors|)
    && (m.cnt == 0 ==> m.vi + 1 == |m.vectors| && m.vecOff == |m.vectors[m.vi]|)
    && m.sent + m.vectors[m.vi][m.vecOff..] + Concat(m.vectors[m.vi + 1..]) == Concat(m.vectors)
    && m.offset == |m.sent|
  }

  function Start(vs: seq<seq<Byte>>): Msg {
    Msg(vs, 0, |vs|, 0, 0, |Concat(vs)|, [])
  }

  /** l bytes were accepted. */
  function Advance(m: Msg, l: nat): Msg
    requires m.vi < |m.vectors| && m.vecOff + l <= |m.vectors[m.vi]| && m.cnt > 0
  {
    var v := m.vectors[m.vi];
    var m1 := m.(offset := m.offset + l, vecOff := m.vecOff + l, sent := m.sent + v[m.vecOff..m.vecOff + l]);
    if m1.vecOff != |v| then m1
    else if m.cnt - 1 > 0 then m1.(cnt := m.cnt - 1, vi := m.vi + 1, vecOff := 0)
    else m1.(cnt := 0)
  }

  function Diff(m: Msg): nat
    requires m.vi < |m.vectors| && m.vecOff <= |m.vectors[m.vi]|
  {
    |m.vectors[m.vi]| - m.vecOff
  }

  /** How much one round offers to tcp_write. */
  function Offer(m: Msg, avail: nat): nat
    requires m.vi < |m.vectors| && m.vecOff <= |m.vectors[m.vi]|
  {
    var len := if Diff(m) > U16_MAX then U16_MAX else Diff(m);
    if avail < len then avail else len
  }

  /** write_more */
  predicate Again(m: Msg, l: nat)
    requires m.vi < |m.vectors| && m.vecOff <= |m.vectors[m.vi]|
  {
    (l == U16_MAX && Diff(m) > U16_MAX) || (l == Diff(m) % 0x10000 && m.cnt > 1)
  }

  lemma {:induction false} ConcatSplit(vs: seq<seq<Byte>>, i: nat)
    requires i < |vs|
    ensures Concat(vs[i..]) == vs[i] + Concat(vs[i + 1..])
  {
  }

  lemma StartInv(vs: seq<seq<Byte>>)
    requires vs != []
    ensures Inv(Start(vs))
  {
  }

  /** Whatever is accepted, the bytes given to tcp_write continue the concatenated vectors. */
  lemma AdvanceKeeps(m: Msg, l: nat)
    requires Inv(m) && m.cnt > 0 && m.vecOff + l <= |m.vectors[m.vi]|
    ensures Inv(Advance(m, l))
  {
    hide Concat;
    var v, rest := m.vectors[m.vi], Concat(m.vectors[m.vi + 1..]);
    var part := v[m.vecOff..m.vecOff + l];
    assert v[m.vecOff..] == part + v[m.vecOff + l..];
    Regroup(m.sent, part, v[m.vecOff + l..], rest);
    if m.vecOff + l == |v| && m.cnt > 1 {
      ConcatSplit(m.vectors, m.vi + 1);
      var w := m.vectors[m.vi + 1];
      assert v[m.vecOff + l..] == [] && w[0..] == w;
      RegroupNext(m.sent + part, w, Concat(m.vectors[m.vi + 2..]));
    }
  }

  lemma Regroup(a: seq<Byte>, b: seq<Byte>, c: seq<Byte>, d: seq<Byte>)
    ensures a + (b + c) + d == (a + b) + c + d
  {
  }

  lemma RegroupNext(a: seq<Byte>, w: seq<Byte>, d: seq<Byte>)
    ensures a + [] + (w + d) == a + w + d
  {
  }

  /** The bytes given to tcp_write are the first `offset` bytes of the concatenated vectors; all of them when offset is len. */
  lemma SentIsPrefix(m: Msg)
    requires Inv(m)
    ensures m.offset <= m.len && m.sent == Concat(m.vectors)[..m.offset]
    ensures m.offset == m.len ==> m.sent == Concat(m.vectors)
  {
  }

  /** One round for any vectors and any answers of TCP: nothing, or as much as was offered. */
  ghost predicate Round(m: Msg, m': Msg) {
    m' == m || (m.vi < |m.vectors| && m.vecOff <= |m.vectors[m.vi]| && m.cnt > 0 && exists avail: nat :: m' == Advance(m, Offer(m, avail)))
  }

  /** Over all rounds of a write, whatever the lengths of its vectors, the bytes given to tcp_write are
      exactly the first `offset` bytes of the concatenated vectors. */
  lemma {:induction false} RoundsPrefix(ms: seq<Msg>, i: nat)
    requires i < |ms| && ms[0].vectors != [] && ms[0] == Start(ms[0].vectors)
    requires forall k {:trigger ms[k]} :: 0 < k < |ms| ==> Round(ms[k - 1], ms[k])
    ensures Inv(ms[i]) && ms[i].vectors == ms[0].vectors && ms[i].sent == Concat(ms[0].vectors)[..ms[i].offset]
  {
    hide Concat;
    if i == 0 {
      StartInv(ms[0].vectors);
    } else {
      RoundsPrefix(ms, i - 1);
      assert Round(ms[i - 1], ms[i]);
      if ms[i] != ms[i - 1] {
        var avail: nat :| ms[i] == Advance(ms[i - 1], Offer(ms[i - 1], avail));
        AdvanceKeeps(ms[i - 1], Offer(ms[i - 1], avail));
      }
    }
    SentIsPrefix(ms[i]);
  }

  // ---- rounds without progress

  /** The round leaves everything as it is and asks for another one. */
  predicate Stalls(m: Msg, dontblock: bool, avail: nat)
    requires m.vi < |m.vectors| && m.vecOff <= |m.vectors[m.vi]| && m.cnt > 0
  {
    var l := Offer(m, avail);
    !(dontblock && avail < Diff(m) && l == 0) && Again(m, l) && Advance(m, l) == m
  }

  /** This happens exactly when the send buffer of a blocking connection is full while a multiple of
      65536 bytes is left of a vector that is not the last one: (u16_t)diff is 0 then. */
  lemma StallsIff(m: Msg, dontblock: bool, avail: nat)
    requires Inv(m) && m.cnt > 0
    ensures Stalls(m, dontblock, avail) <==> !dontblock && avail == 0 && m.cnt > 1 && Diff(m) > 0 && Diff(m) % 0x10000 == 0
  {
  }

  /** For example, 65536 bytes and another vector on a connection whose send buffer is full. */
  lemma StallExample(v: seq<Byte>, x: Byte)
    requires |v| == 0x10000
    ensures var m := Start([v, [x]]); Inv(m) && Stalls(m, false, 0)
  {
    StartInv([v, [x]]);
  }

  // ---- the rounds of one call

  /** What a round leaves behind: the message, the room in the send buffer, the error, and write_more. */
  datatype Step = Step(m: Msg, room: nat, err: Err, more: bool)

  /** One round, with `room` bytes left in the send buffer; tcp_write answers `res`. */
  function RoundStep(m: Msg, room: nat, dontblock: bool, res: Err): Step
    requires m.vi < |m.vectors| && m.vecOff <= |m.vectors[m.vi]| && m.cnt > 0
  {
    var l := Offer(m, room);
    if dontblock && room == 0 && Diff(m) > 0 then Step(m, room, if m.offset == 0 then WouldBlock else Ok, false)
    else if !res.Ok? then Step(m, room, res, false)
    else Step(Advance(m, l), room - l, Ok, Again(m, l))
  }

  lemma RoundInv(m: Msg, room: nat, dontblock: bool, res: Err)
    requires Inv(m) && m.cnt > 0
    ensures var r := RoundStep(m, room, dontblock, res);
            && Inv(r.m) && r.m.vectors == m.vectors && m.offset <= r.m.offset && (r.more ==> r.err.Ok? && r.m.cnt > 0)
            && (!r.err.Ok? ==> r.m == m) && (r.more || !r.err.Ok? ==> r.m.cnt > 0)
  {
    hide Concat;
    AdvanceKeeps(m, Offer(m, room));
  }

  /** The first n rounds of a call, or all of them if there are fewer; tcp_write answers res(k) in round k. */
  ghost function Rounds(m: Msg, room: nat, dontblock: bool, res: nat -> Err, n: nat): (r: Step)
    requires Inv(m) && m.cnt > 0
    ensures Inv(r.m) && r.m.vectors == m.vectors && m.offset <= r.m.offset
    ensures r.more ==> r.err.Ok?
    ensures r.more || !r.err.Ok? ==> r.m.cnt > 0
    decreases n
  {
    if n == 0 then Step(m, room, Ok, true)
    else
      var p := Rounds(m, room, dontblock, res, n - 1);
      if !p.more then p
      else RoundInv(p.m, p.room, dontblock, res(n - 1)); RoundStep(p.m, p.room, dontblock, res(n - 1))
  }

  /** Once the loop is over it stays over. */
  lemma {:induction false} Over(m: Msg, room: nat, dontblock: bool, res: nat -> Err, a: nat, b: nat)
    requires Inv(m) && m.cnt > 0 && a <= b && !Rounds(m, room, dontblock, res, a).more
    ensures Rounds(m, room, dontblock, res, b) == Rounds(m, room, dontblock, res, a)
    decreases b
  {
    hide Inv, RoundStep;
    if a < b { Over(m, room, dontblock, res, a, b - 1); }
  }

  // ---- whether the loop comes to an end

  ghost predicate Ends(m: Msg, room: nat, dontblock: bool, res: nat -> Err)
    requires Inv(m) && m.cnt > 0
  {
    exists n: nat :: !Rounds(m, room, dontblock, res, n).more
  }

  /** Behind byte `off` of vector i, the next `room` bytes end where a positive multiple of 65536 bytes
      is left of a vector that is not the last one. */
  predicate FullAt(vs: seq<seq<Byte>>, i: nat, off: nat, room: nat)
    requires i < |vs| && off <= |vs[i]|
    decreases |vs| - i
  {
    var left := |vs[i]| - off;
    i + 1 < |vs| && if room < left then (left - room) % 0x10000 == 0 else FullAt(vs, i + 1, 0, room - left)
  }

  /** The send buffer will be full there. */
  predicate Jams(m: Msg, room: nat)
    requires m.vi < |m.vectors| && m.vecOff <= |m.vectors[m.vi]|
  {
    m.cnt > 0 && FullAt(m.vectors, m.vi, m.vecOff, room)
  }

  /** Where the buffer will be full does not change while it is filled; if it is such a place, there is
      always another round; and if it is not, every further round makes progress. */
  lemma RoundJams(m: Msg, room: nat, dontblock: bool)
    requires Inv(m) && m.cnt > 0
    ensures var r := RoundStep(m, room, dontblock, Ok);
            && r.m.vi < |r.m.vectors| && r.m.vecOff <= |r.m.vectors[r.m.vi]|
            && (Jams(m, room) && !dontblock ==> r.more)
            && (r.more ==> (Jams(r.m, r.room) <==> Jams(m, room)))
            && (r.more && (dontblock || !Jams(m, room)) ==> Work(r.m) < Work(m))
  {
    hide Concat;
    RoundInv(m, room, dontblock, Ok);
    SentIsPrefix(RoundStep(m, room, dontblock, Ok).m);
    SentIsPrefix(m);
  }

  /** The bytes and the vectors left. */
  function Work(m: Msg): int {
    m.len - m.offset + m.cnt
  }

  lemma {:induction false} ShrinkingWork(m: Msg, room: nat, dontblock: bool, res: nat -> Err, n: nat)
    requires Inv(m) && m.cnt > 0 && (dontblock || !Jams(m, room))
    ensures var r := Rounds(m, room, dontblock, res, n);
            r.more ==> r.m.vi < |r.m.vectors| && r.m.vecOff <= |r.m.vectors[r.m.vi]| && (dontblock || !Jams(r.m, r.room)) && Work(r.m) + n <= Work(m)
    decreases n
  {
    hide Concat, Advance, FullAt;
    if n > 0 {
      ShrinkingWork(m, room, dontblock, res, n - 1);
      var p := Rounds(m, room, dontblock, res, n - 1);
      if p.more { RoundJams(p.m, p.room, dontblock); }
    }
  }

  lemma {:induction false} JammedRounds(m: Msg, room: nat, res: nat -> Err, n: nat)
    requires Inv(m) && m.cnt > 0 && Jams(m, room) && forall k: nat :: res(k).Ok?
    ensures var r := Rounds(m, room, false, res, n);
            r.more && r.m.vi < |r.m.vectors| && r.m.vecOff <= |r.m.vectors[r.m.vi]| && Jams(r.m, r.room)
    decreases n
  {
    hide Concat, Advance, FullAt;
    if n > 0 {
      JammedRounds(m, room, res, n - 1);
      var p := Rounds(m, room, false, res, n - 1);
      RoundJams(p.m, p.room, false);
    }
  }

  /** The loop of a call comes to an end exactly when the connection does not block, or the send buffer does not
      get full at such a place, or tcp_write fails at some time. */
  lemma EndsIff(m: Msg, room: nat, dontblock: bool, res: nat -> Err)
    requires Inv(m) && m.cnt > 0
    ensures Ends(m, room, dontblock, res) <==> dontblock || !Jams(m, room) || exists k: nat :: !res(k).Ok?
  {
    hide Concat, Advance, FullAt, RoundStep;
    if dontblock || !Jams(m, room) {
      SentIsPrefix(m);
      var n: nat := Work(m) + 1;
      ShrinkingWork(m, room, dontblock, res, n);
      var r := Rounds(m, room, dontblock, res, n);
      SentIsPrefix(r.m);
      assert !r.more;
    } else if k: nat :| !res(k).Ok? {
      RefusedRound(m, room, res, k);
    } else {
      forall n: nat ensures Rounds(m, room, dontblock, res, n).more { JammedRounds(m, room, res, n); }
    }
  }

  lemma RefusedRound(m: Msg, room: nat, res: nat -> Err, k: nat)
    requires Inv(m) && m.cnt > 0 && !res(k).Ok?
    ensures !Rounds(m, room, false, res, k + 1).more
  {
    hide Concat, Advance, Inv;
  }

  // ---- calls one after the other

  /** What the loop ends with. */
  ghost function Final(m: Msg, room: nat, dontblock: bool, res: nat -> Err): (r: Step)
    requires Inv(m) && m.cnt > 0 && Ends(m, room, dontblock, res)
    ensures !r.more && Inv(r.m) && r.m.vectors == m.vectors && m.offset <= r.m.offset && (!r.err.Ok? ==> r.m.cnt > 0)
  {
    var n: nat :| !Rounds(m, room, dontblock, res, n).more;
    Rounds(m, room, dontblock, res, n)
  }

  lemma FinalIs(m: Msg, room: nat, dontblock: bool, res: nat -> Err, n: nat)
    requires Inv(m) && m.cnt > 0 && !Rounds(m, room, dontblock, res, n).more
    ensures Ends(m, room, dontblock, res) && Final(m, room, dontblock, res) == Rounds(m, room, dontblock, res, n)
  {
    hide Inv, Rounds;
    assert Ends(m, room, dontblock, res);
    var k: nat :| !Rounds(m, room, dontblock, res, k).more && Final(m, room, dontblock, res) == Rounds(m, room, dontblock, res, k);
    if k <= n { Over(m, room, dontblock, res, k, n); } else { Over(m, room, dontblock, res, n, k); }
  }

  /** A blocking write is not over yet: there was no memory, or the buffer got full. */
  predicate Waits(r: Step) {
    r.err.Mem? || (r.err.Ok? && r.m.offset != r.m.len)
  }

  /** A call of a blocking connection may return without acknowledging the message and leave m'. */
  ghost predicate Leaves(m: Msg, m': Msg)
    requires Inv(m) && m.cnt > 0
  {
    exists room: nat, res: nat -> Err :: LeavesBy(m, m', room, res)
  }

  ghost predicate LeavesBy(m: Msg, m': Msg, room: nat, res: nat -> Err)
    requires Inv(m) && m.cnt > 0
  {
    Ends(m, room, false, res) && var r := Final(m, room, false, res); Waits(r) && m' == r.m
  }

  /** The message before the first call, and after each of some calls that do not acknowledge it. */
  ghost predicate Waiting(ms: seq<Msg>, vs: seq<seq<Byte>>) {
    && ms != [] && ms[0] == Start(vs)
    && forall k {:trigger ms[k]} :: 0 < k < |ms| ==> Inv(ms[k - 1]) && ms[k - 1].cnt > 0 ==> Leaves(ms[k - 1], ms[k])
  }

  /** With its last vector begun there is something left of it, unless it is empty. */
  ghost predicate Open(m: Msg)
    requires m.vi < |m.vectors|
  {
    m.vectors[|m.vectors| - 1] != [] && m.cnt > 0 && m.vi + 1 == |m.vectors| ==> m.vecOff < |m.vectors[m.vi]|
  }

  lemma AdvanceOpen(m: Msg, l: nat)
    requires Inv(m) && m.cnt > 0 && l <= Diff(m) && Open(m)
    ensures var m' := Advance(m, l); m'.vi < |m'.vectors| && Open(m')
  {
    hide Concat;
  }

  lemma {:induction false} RoundsOpen(m: Msg, room: nat, dontblock: bool, res: nat -> Err, n: nat)
    requires Inv(m) && m.cnt > 0 && Open(m)
    ensures var r := Rounds(m, room, dontblock, res, n); r.m.vi < |r.m.vectors| && Open(r.m)
    decreases n
  {
    hide Concat, Advance, Open;
    if n > 0 {
      RoundsOpen(m, room, dontblock, res, n - 1);
      var p := Rounds(m, room, dontblock, res, n - 1);
      if p.more { AdvanceOpen(p.m, Offer(p.m, p.room)); }
    }
  }

  lemma {:induction false} ConcatLonger(vs: seq<seq<Byte>>, i: nat)
    requires i < |vs|
    ensures |Concat(vs[i..])| >= |vs[|vs| - 1]|
    decreases |vs| - i
  {
    ConcatSplit(vs, i);
    if i + 1 < |vs| { ConcatLonger(vs, i + 1); }
  }

  lemma OpenShort(m: Msg)
    requires Inv(m) && Open(m) && m.cnt > 0 && m.vectors[|m.vectors| - 1] != []
    ensures m.offset < m.len
  {
    hide Concat;
    if m.vi + 1 < |m.vectors| { ConcatLonger(m.vectors, m.vi + 1); }
  }

  /** Everything has been written when no vector is left. */
  lemma AllWritten(m: Msg)
    requires Inv(m) && m.cnt == 0
    ensures m.offset == m.len
  {
  }

  lemma {:induction false} WaitingOpen(ms: seq<Msg>, vs: seq<seq<Byte>>, i: nat)
    requires Waiting(ms, vs) && i < |ms| && vs != []
    ensures Inv(ms[i]) && ms[i].vectors == vs && ms[i].cnt > 0 && Open(ms[i])
  {
    hide Concat, Open, Rounds, Advance;
    if i == 0 {
      StartInv(vs);
      StartOpen(vs);
    } else {
      WaitingOpen(ms, vs, i - 1);
      var m := ms[i - 1];
      assert Leaves(m, ms[i]);
      var room: nat, res: nat -> Err :| LeavesBy(m, ms[i], room, res);
      var n: nat :| !Rounds(m, room, false, res, n).more;
      FinalIs(m, room, false, res, n);
      RoundsOpen(m, room, false, res, n);
      if ms[i].cnt == 0 { AllWritten(ms[i]); }
    }
  }

  lemma StartOpen(vs: seq<seq<Byte>>)
    requires vs != []
    ensures Open(Start(vs))
  {
  }

  /** With an empty vector at the end and room for everything, there is a round that begins with
      everything written. */
  lemma {:induction false} WritesAll(vs: seq<seq<Byte>>, res: nat -> Err, n: nat, r: Step) returns (k: nat)
    requires vs != [] && vs[|vs| - 1] == [] && (forall i: nat :: res(i).Ok?) && Inv(Start(vs))
    requires r == Rounds(Start(vs), |Concat(vs)|, false, res, n) && r.more && r.room == r.m.len - r.m.offset
    ensures var r := Rounds(Start(vs), |Concat(vs)|, false, res, k); r.more && r.m.offset == r.m.len
    decreases Work(r.m)
  {
    hide Concat, Inv, Advance;
    SentIsPrefix(r.m);
    k := n;
    if r.m.offset != r.m.len {
      FullRound(r.m, r.room);
      var next := Rounds(Start(vs), |Concat(vs)|, false, res, n + 1);
      SentIsPrefix(next.m);
      k := WritesAll(vs, res, n + 1, next);
    }
  }

  lemma FullRound(m: Msg, room: nat)
    requires Inv(m) && m.cnt > 0 && m.vectors[|m.vectors| - 1] == [] && m.offset < m.len && room == m.len - m.offset
    ensures var r := RoundStep(m, room, false, Ok); r.more && r.room == r.m.len - r.m.offset && Work(r.m) < Work(m)
  {
    hide Concat;
    LeftIs(m);
  }

  /** What is left of a message is the rest of its vector and the vectors behind. */
  lemma LeftIs(m: Msg)
    requires Inv(m)
    ensures m.len - m.offset == Diff(m) + |Concat(m.vectors[m.vi + 1..])|
    ensures m.vi + 1 == |m.vectors| ==> m.len - m.offset == Diff(m)
  {
  }

  /** Writing stops there if tcp_write then has no memory. */
  lemma {:induction false} SameRounds(m: Msg, room: nat, a: nat -> Err, b: nat -> Err, n: nat)
    requires Inv(m) && m.cnt > 0 && forall k: nat :: k < n ==> a(k) == b(k)
    ensures Rounds(m, room, false, a, n) == Rounds(m, room, false, b, n)
    decreases n
  {
    hide Inv, RoundStep;
    if n > 0 { SameRounds(m, room, a, b, n - 1); }
  }

  lemma StopsShort(vs: seq<seq<Byte>>) returns (m: Msg)
    requires vs != [] && vs[|vs| - 1] == []
    ensures Inv(Start(vs)) && Leaves(Start(vs), m) && m.offset == m.len
  {
    hide Concat, Inv, Advance;
    StartInv(vs);
    var s, room := Start(vs), |Concat(vs)|;
    var ok: nat -> Err := (_: nat) => Ok;
    var k := WritesAll(vs, ok, 0, Rounds(s, room, false, ok, 0));
    var res: nat -> Err := (i: nat) => if i < k then Ok else Mem;
    SameRounds(s, room, ok, res, k);
    var r := Rounds(s, room, false, res, k + 1);
    FinalIs(s, room, false, res, k + 1);
    m := r.m;
    assert LeavesBy(s, m, room, res);
  }

  /** The assertion at the beginning of the next call, that something is left to write, can fail exactly
      for vectors the last of which is empty. */
  lemma AssertionFailsIff(vs: seq<seq<Byte>>)
    requires vs != [] && |Concat(vs)| > 0
    ensures (exists ms: seq<Msg> :: Waiting(ms, vs) && ms[|ms| - 1].offset >= ms[|ms| - 1].len) <==> vs[|vs| - 1] == []
  {
    hide Concat, Inv, Open, Leaves;
    if vs[|vs| - 1] == [] {
      var m := StopsShort(vs);
      var ms := [Start(vs), m];
      assert Waiting(ms, vs) && ms[|ms| - 1].offset >= ms[|ms| - 1].len;
    } else {
      forall ms: seq<Msg> | Waiting(ms, vs) ensures ms[|ms| - 1].offset < ms[|ms| - 1].len {
        WaitingOpen(ms, vs, |ms| - 1);
        OpenShort(ms[|ms| - 1]);
      }
    }
  }

  /** One byte, then nothing: a call of a blocking connection returns with the byte written and the message
      not acknowledged. */
  lemma TrailingEmptyVector(x: Byte) returns (m: Msg)
    ensures var s := Start([[x], []]); Inv(s) && s.offset < s.len && Leaves(s, m) && m.offset == m.len == 1
  {
    m := StopsShort([[x], []]);
    assert Concat([[x], []]) == [x];
    WaitingOpen([Start([[x], []]), m], [[x], []], 1);
  }

  /** A nonblocking call that ends without error has written something. */
  lemma RoundsWrote(m: Msg, room: nat, dontblock: bool, res: nat -> Err, n: nat)
    requires Inv(m) && m.cnt > 0 && m.offset < m.len
    ensures var r := Rounds(m, room, dontblock, res, n); dontblock && !r.more && r.err.Ok? ==> r.m.offset > 0
    decreases n
  {
    hide Concat, Advance;
    if n > 0 {
      var p := Rounds(m, room, dontblock, res, n - 1);
      if p.more { RoundWrote(p.m, p.room, res(n - 1)); } else { RoundsWrote(m, room, dontblock, res, n - 1); }
    }
  }

  lemma RoundWrote(m: Msg, room: nat, res: Err)
    requires Inv(m) && m.cnt > 0 && m.len > 0
    ensures var r := RoundStep(m, room, true, res); !r.more && r.err.Ok? ==> r.m.offset > 0
  {
    hide Concat;
    AdvanceKeeps(m, Offer(m, room));
    if Advance(m, Offer(m, room)).cnt == 0 { AllWritten(Advance(m, Offer(m, room))); }
  }

  /** What holds of a message at the end of the loop. */
  lemma FinalFacts(m: Msg, room: nat, dontblock: bool, res: nat -> Err)
    requires Inv(m) && Open(m) && m.cnt > 0 && m.offset < m.len && Ends(m, room, dontblock, res)
    ensures var r := Final(m, room, dontblock, res);
            && r.m.vi < |r.m.vectors| && Open(r.m) && r.m.offset <= r.m.len && (r.m.offset == r.m.len ==> r.m.sent == Concat(m.vectors))
            && (dontblock && r.err.Ok? ==> r.m.offset > 0)
            && (r.m.cnt == 0 ==> r.m.offset == r.m.len)
            && (r.m.cnt > 0 && m.vectors[|m.vectors| - 1] != [] ==> r.m.offset < r.m.len)
  {
    hide Concat, Inv, Open, Rounds;
    var n: nat :| !Rounds(m, room, dontblock, res, n).more;
    FinalIs(m, room, dontblock, res, n);
    var r := Final(m, room, dontblock, res);
    RoundsOpen(m, room, dontblock, res, n);
    RoundsWrote(m, room, dontblock, res, n);
    SentIsPrefix(r.m);
    if r.m.cnt == 0 {
      AllWritten(r.m);
    } else if m.vectors[|m.vectors| - 1] != [] {
      OpenShort(r.m);
    }
  }

  // ---- how much a call writes, and what it may answer

  /** tcp_write returned this. */
  ghost predicate Reported(res: nat -> Err, e: Err) {
    exists k: nat :: res(k) == e
  }

  /** What is written comes out of the room; without error the loop ends when there is no room left or nothing to write;
      an error is what tcp_write returned, or that a nonblocking write finds no room from the start. */
  lemma RoundUses(m: Msg, room: nat, dontblock: bool, res: Err)
    requires Inv(m) && m.cnt > 0
    ensures var r := RoundStep(m, room, dontblock, res);
            && r.room + r.m.offset == room + m.offset
            && (!r.more && r.err.Ok? ==> r.room == 0 || r.m.offset == r.m.len)
            && (!r.err.Ok? ==> r.err == res || (r.err.WouldBlock? && dontblock && r.room == 0 && r.m.offset == 0))
  {
    hide Concat;
    AdvanceKeeps(m, Offer(m, room));
    if Advance(m, Offer(m, room)).cnt == 0 { AllWritten(Advance(m, Offer(m, room))); }
  }

  lemma {:induction false} RoundsUse(m: Msg, room: nat, dontblock: bool, res: nat -> Err, n: nat)
    requires Inv(m) && m.cnt > 0
    ensures var r := Rounds(m, room, dontblock, res, n);
            && r.room + r.m.offset == room + m.offset
            && (!r.more && r.err.Ok? ==> r.room == 0 || r.m.offset == r.m.len)
            && (!r.err.Ok? ==> Reported(res, r.err) || (r.err.WouldBlock? && dontblock && r.room == 0 && r.m.offset == 0))
    decreases n
  {
    hide Concat, Inv, RoundStep;
    if n > 0 {
      RoundsUse(m, room, dontblock, res, n - 1);
      var p := Rounds(m, room, dontblock, res, n - 1);
      if p.more { RoundUses(p.m, p.room, dontblock, res(n - 1)); }
    }
  }

  /** A call writes as much as there is room for, unless tcp_write stops it. */
  lemma FinalMeans(m: Msg, room: nat, dontblock: bool, res: nat -> Err)
    requires Inv(m) && m.cnt > 0 && Ends(m, room, dontblock, res)
    ensures m.offset <= m.len
    ensures var r := Final(m, room, dontblock, res);
            && r.m.offset <= m.offset + Min(room, m.len - m.offset)
            && (r.err.Ok? ==> r.m.offset == m.offset + Min(room, m.len - m.offset))
            && (!r.err.Ok? ==> Reported(res, r.err) || (r.err.WouldBlock? && dontblock && room == 0 && m.offset == 0))
  {
    hide Concat, Inv, Rounds;
    var n: nat :| !Rounds(m, room, dontblock, res, n).more;
    FinalIs(m, room, dontblock, res, n);
    RoundsUse(m, room, dontblock, res, n);
    var r := Final(m, room, dontblock, res);
    SentIsPrefix(m);
    SentIsPrefix(r.m);
    SameLen(m, r.m);
  }

  lemma SameLen(m: Msg, m': Msg)
    requires Inv(m) && Inv(m') && m'.vectors == m.vectors
    ensures m'.len == m.len
  {
  }

  // ---- lwip_netconn_do_writemore

  class Writer {
    const vectors: seq<seq<Byte>>
    /** vector, vector_cnt, vector_off, offset, len */
    var vi: nat
    var cnt: nat
    var vecOff: nat
    var offset: nat
    const len: nat
    ghost var sent: seq<Byte>

    ghost function Now(): Msg
      reads this
    {
      Msg(vectors, vi, cnt, vecOff, offset, len, sent)
    }

    constructor (vs: seq<seq<Byte>>)
      requires vs != []
      ensures vectors == vs && Now() == Start(vs) && Inv(Now()) && Open(Now())
    {
      vectors, vi, cnt, vecOff, offset, sent := vs, 0, |vs|, 0, 0, [];
      len := |Concat(vs)|;
      new;
      StartInv(vs);
    }

    /** tcp_write accepted the next l bytes. */
    method Accept(l: nat)
      requires Inv(Now()) && cnt > 0 && vecOff + l <= |vectors[vi]|
      modifies this
      ensures Now() == Advance(old(Now()), l)
    {
      sent := sent + vectors[vi][vecOff..vecOff + l];
      offset := offset + l;
      vecOff := vecOff + l;
      if vecOff == |vectors[vi]| {
        cnt := cnt - 1;
        if cnt > 0 {
          vi := vi + 1;
          vecOff := 0;
        }
      }
    }

    /** One round of the loop. */
    method Round(dontblock: bool, room: nat, res: Err) returns (err: Err, left: nat, more: bool)
      requires Inv(Now()) && cnt > 0
      modifies this
      ensures Step(Now(), left, err, more) == RoundStep(old(Now()), room, dontblock, res)
    {
      hide Concat, Advance;
      var diff := |vectors[vi]| - vecOff;
      var l := if diff > U16_MAX then U16_MAX else diff;
      var available := if room > U16_MAX then U16_MAX else room;
      left := room;
      if available < l {
        l := available;
        if dontblock && l == 0 {
          return if offset == 0 then WouldBlock else Ok, left, false;
        }
      }
      more := (l == U16_MAX && diff > U16_MAX) || (l == diff % 0x10000 && cnt > 1);
      err := res;
      if err.Ok? {
        left := room - l;
        Accept(l);
      } else {
        more := false;
      }
    }

    /** The loop. */
    method WriteRounds(dontblock: bool, room: nat, res: nat -> Err) returns (err: Err)
      requires Inv(Now()) && cnt > 0 && Ends(Now(), room, dontblock, res)
      modifies this
      ensures Ends(old(Now()), room, dontblock, res)
      ensures var r := Final(old(Now()), room, dontblock, res); Now() == r.m && err == r.err
    {
      hide Inv, RoundStep;
      ghost var m := Now();
      ghost var n: nat :| !Rounds(m, room, dontblock, res, n).more;
      var k: nat, left: nat, more := 0, room, true;
      err := Ok;
      while more
        invariant Step(Now(), left, err, more) == Rounds(m, room, dontblock, res, k)
        invariant more ==> k < n
        decreases n - k, more
      {
        err, left, more := Round(dontblock, left, res(k));
        k := k + 1;
        if k >= n { Over(m, room, dontblock, res, n, k); }
      }
      FinalIs(m, room, dontblock, res, k);
    }

    /** lwip_netconn_do_writemore. room: the free part of the send buffer; res(k): what tcp_write returns in
        round k; noRoute: whether tcp_output finds no route; timedOut: whether the send timeout is over. */
    method WriteMore(dontblock: bool, timedOut: bool, room: nat, res: nat -> Err, noRoute: bool) returns (err: Err, finished: bool)
      requires Inv(Now()) && Open(Now()) && offset < len && cnt > 0
      // otherwise the loop does not end
      requires timedOut || dontblock || !Jams(Now(), room) || exists k: nat :: !res(k).Ok?
      modifies this
      ensures Inv(Now()) && Open(Now()) && old(offset) <= offset
      // a blocking write that is acknowledged without error has written everything
      ensures !dontblock && !timedOut && finished && err.Ok? ==> offset == len && sent == Concat(vectors)
      // a nonblocking one is over after one call, and without error only if it wrote something
      ensures (dontblock || timedOut) && err.Ok? ==> offset > 0
      // a message that is not acknowledged is continued later, with something left to write unless its last vector is empty
      ensures timedOut || dontblock || noRoute ==> finished
      ensures !timedOut && !dontblock && !noRoute ==> Ends(old(Now()), room, false, res) && (finished <==> !Waits(Final(old(Now()), room, false, res)))
      // the loop ended with r: without error and with a route, a blocking write is finished exactly when everything is written
      ensures !timedOut ==> Ends(old(Now()), room, dontblock, res) && Now() == Final(old(Now()), room, dontblock, res).m
      ensures !timedOut && !noRoute && Final(old(Now()), room, dontblock, res).err.Ok? ==>
                (finished <==> dontblock || offset == len) && (finished ==> err.Ok?)
      // if there is memory and a route, a nonblocking write succeeds exactly when it wrote something
      ensures !timedOut && !noRoute && dontblock && (forall k: nat :: res(k).Ok? || res(k).Mem?) ==>
                (err.Ok? <==> offset > 0) && (!err.Ok? ==> err.WouldBlock?)
      // as much is written as there is room for, unless tcp_write stops it
      ensures !timedOut && (forall k: nat :: res(k).Ok?) ==> offset == old(offset) + Min(room, len - old(offset))
      // an error has its reason
      ensures finished && !err.Ok? ==> (err.Rte? && noRoute) || (err.WouldBlock? && offset == 0) || (!err.Mem? && Reported(res, err))
      ensures noRoute && !timedOut ==> !err.Ok?
      ensures timedOut ==> Now() == old(Now()) && err == if offset == 0 then WouldBlock else Ok
      ensures !finished ==> Leaves(old(Now()), Now()) && cnt > 0 && (vectors[|vectors| - 1] != [] ==> offset < len)
    {
      hide Concat, Inv, Open, Jams, Final;
      finished := false;
      ghost var m := Now();
      SentIsPrefix(m);
      if timedOut {
        return if offset == 0 then WouldBlock else Ok, true;
      }
      EndsIff(m, room, dontblock, res);
      err := WriteRounds(dontblock, room, res);
      FinalFacts(m, room, dontblock, res);
      FinalMeans(m, room, dontblock, res);
      if err.Ok? {
        finished := offset == len || dontblock;
        if noRoute {
          err, finished := Rte, true;
        }
      } else if err.Mem? {
        if noRoute {
          err, finished := Rte, true;
        } else if dontblock {
          err, finished := if offset == 0 then WouldBlock else Ok, true;
        }
      } else {
        finished := true;
      }
      assert !finished ==> LeavesBy(m, Now(), room, res);
    }
  }
}
