/** The cache side of the resolver: which entry a new query evicts, and how long an answer is kept. */
module DnsCache {
  import opened Basics
  import opened DnsModel
  import opened DnsProofs
  import opened DnsRuns

  // ---- eviction

  /** How many queries were made after this one. */
  function TrueAge(s: State, e: Entry): int {
    s.queries - e.number
  }

  /** The age dns_enqueue computes is the true one cut to 8 bits. */
  lemma AgeIs(c: Config, s: State, i: nat)
    requires Good(c, s) && i < |s.table| && s.table[i].state.Done?
    ensures TrueAge(s, s.table[i]) > 0 && Age(s.seqno, s.table[i]) == TrueAge(s, s.table[i]) % 256
  {
    assert EntryOk(c, |s.servers|, s.queries, s.table[i]);
    Mod256(s.queries, s.table[i].number);
  }

  lemma Mod256(q: int, n: int)
    ensures (q % 256 - n % 256) % 256 == (q - n) % 256
  {
  }

  /** lseq is the greatest age among the completed entries seen, and lseqi has it. */
  lemma {:induction false} OldestIs(table: seq<Entry>, seqno: nat, n: nat)
    requires n <= |table|
    ensures var (lseq, lseqi) := Oldest(table, seqno, n);
            && (forall k {:trigger table[k]} :: 0 <= k < n && table[k].state.Done? ==> Age(seqno, table[k]) <= lseq)
            && (lseqi < n <==> lseq > 0) && (lseqi < n ==> Age(seqno, table[lseqi]) == lseq)
    decreases n
  {
    if n > 0 { OldestIs(table, seqno, n - 1); }
  }

  /** When no entry is unused and no completed one is 256 queries old or older, the oldest of them makes room. */
  lemma EvictsOldest(c: Config, s: State)
    requires Good(c, s) && FirstUnused(s.table, 0).None?
    requires forall k {:trigger s.table[k]} :: 0 <= k < |s.table| && s.table[k].state.Done? ==> TrueAge(s, s.table[k]) < 256
    ensures var v := Victim(s.table, s.seqno);
            && (v.Some? <==> exists k :: 0 <= k < |s.table| && s.table[k].state.Done?)
            && (v.Some? ==> forall k {:trigger s.table[k]} :: 0 <= k < |s.table| && s.table[k].state.Done? ==>
                              s.table[v.value].number <= s.table[k].number)
  {
    hide Good;
    OldestIs(s.table, s.seqno, |s.table|);
    forall k {:trigger s.table[k]} | 0 <= k < |s.table| && s.table[k].state.Done?
      ensures Age(s.seqno, s.table[k]) == TrueAge(s, s.table[k]) > 0
    {
      AgeIs(c, s, k);
    }
  }

  /** In general, a full table turns a query away exactly when every completed entry is a multiple of 256 queries old. */
  lemma NoVictimIff(c: Config, s: State)
    requires Good(c, s) && FirstUnused(s.table, 0).None?
    ensures Victim(s.table, s.seqno).None? <==>
              forall k {:trigger s.table[k]} :: 0 <= k < |s.table| && s.table[k].state.Done? ==> TrueAge(s, s.table[k]) % 256 == 0
  {
    hide Good;
    OldestIs(s.table, s.seqno, |s.table|);
    forall k {:trigger s.table[k]} | 0 <= k < |s.table| && s.table[k].state.Done?
      ensures Age(s.seqno, s.table[k]) == TrueAge(s, s.table[k]) % 256
    {
      AgeIs(c, s, k);
    }
  }

  // ---- a run that gets there

  /** One slot for requests, one server; entry 0 holds the answer to the first query, entry 1 is free, and
      n more queries have been answered. */
  predicate Cycled(s: State, n: nat) {
    && |s.table| == 2 && s.requests == [None] && s.servers == [true] && s.queries == n + 1 && s.seqno == (n + 1) % 256
    && s.table[0].state.Done? && s.table[0].number == s.table[0].seqno == 0 && s.table[1].state.Unused?
  }

  const ASK := Ask([97], V4, 0)

  /** An answer, cached for `ttl` ticks. */
  function Answered(ttl: nat): Event {
    Packet(0, Found(ttl, 1, false), 0)
  }

  /** The query is in entry i, and its call waits in the one slot. */
  predicate Asked(s: State, i: nat) {
    && i < |s.table| == 2 && |s.requests| == 1 && WaitsFor(s.requests[0], i) && s.servers == [true]
    && s.table[i].state.Asking? && s.table[i].txid == 0
    && (i == 1 ==> !s.table[0].state.Asking?)
  }

  lemma AskStep(c: Config, s: State)
    requires Good(c, s) && |s.table| == 2 && s.requests == [None] && s.servers == [true]
    requires !s.table[0].state.Asking? && !s.table[1].state.Asking? && (s.table[0].state.Unused? || s.table[1].state.Unused?)
    ensures Enabled(s, ASK)
    ensures var s', i := Next(c, s, ASK), if s.table[0].state.Unused? then 0 else 1;
            && Asked(s', i) && s'.table[1 - i] == s.table[1 - i] && s'.table[i].number == s.queries && s'.table[i].seqno == s.seqno
            && s'.queries == s.queries + 1 && s'.seqno == (s.seqno + 1) % 256
  {
  }

  lemma AnswerStep(c: Config, s: State, i: nat, ttl: nat)
    requires Good(c, s) && Asked(s, i)
    ensures Enabled(s, Answered(ttl))
    ensures var s' := Next(c, s, Answered(ttl));
            && |s'.table| == 2 && s'.table[1 - i] == s.table[1 - i] && s'.requests == [None] && s'.servers == s.servers
            && s'.queries == s.queries && s'.seqno == s.seqno
            && s'.table[i].number == s.table[i].number && s'.table[i].seqno == s.table[i].seqno
            && s'.table[i].state == if Min(ttl, c.maxTtl) == 0 then Unused else Done
  {
  }

  /** A run goes on with one more step. */
  lemma Extend(c: Config, ss: seq<State>, es: seq<Event>, e: Event) returns (ss': seq<State>, es': seq<Event>)
    requires |ss| == |es| + 1 && IsTrace(c, ss, es) && Good(c, ss[|es|]) && Enabled(ss[|es|], e)
    ensures |ss'| == |es'| + 1 && ss' == ss + [Next(c, ss[|es|], e)] && es' == es + [e] && IsTrace(c, ss', es') && Good(c, ss'[|es'|])
  {
    hide Next, Good, Enabled, Start;
    ss', es' := ss + [Next(c, ss[|es|], e)], es + [e];
    forall i {:trigger es'[i]} | 0 <= i < |es'| ensures Moves(c, ss'[i], es'[i], ss'[i + 1]) {
      if i < |es| { assert Moves(c, ss[i], es[i], ss[i + 1]); }
    }
    NextGood(c, ss[|es|], e);
  }

  lemma {:induction false} CycledRun(c: Config, n: nat) returns (ss: seq<State>, es: seq<Event>)
    requires c.maxRetries > 0 && c.maxTtl > 0
    ensures |ss| == |es| + 1 && IsTrace(c, ss, es) && Good(c, ss[|es|]) && Cycled(ss[|es|], n)
  {
    hide Next, Good, Enabled, IsTrace;
    if n == 0 {
      ss, es := FirstAnswer(c);
    } else {
      ss, es := CycledRun(c, n - 1);
      var s := ss[|es|];
      AskStep(c, s);
      ss, es := Extend(c, ss, es, ASK);
      AnswerStep(c, ss[|es|], 1, 0);
      ss, es := Extend(c, ss, es, Answered(0));
    }
  }

  lemma FirstAnswer(c: Config) returns (ss: seq<State>, es: seq<Event>)
    requires c.maxRetries > 0 && c.maxTtl > 0
    ensures |ss| == |es| + 1 && IsTrace(c, ss, es) && Good(c, ss[|es|]) && Cycled(ss[|es|], 0)
  {
    hide Next, Good, Enabled;
    var e := Entry(Unused, [], V4, 0, 0, 0, 0, 0, 0, 0, 0, 0, 0);
    ss, es := [State([e, e], [None], [true], 0, 0, 0, [], [])], [];
    TraceGood(c, ss, es, 0);
    AskStep(c, ss[0]);
    ss, es := Extend(c, ss, es, ASK);
    hide IsTrace;
    AnswerStep(c, ss[|es|], 0, 1);
    ss, es := Extend(c, ss, es, Answered(1));
  }

  /** After one cached answer and 255 more queries, the last of them pending, a table of two entries turns
      the next query away although the cached answer could make room. */
  lemma NoVictimExample(c: Config) returns (ss: seq<State>, es: seq<Event>)
    requires c.maxRetries > 0 && c.maxTtl > 0
    ensures |ss| == |es| + 1 && IsTrace(c, ss, es)
    ensures var s := ss[|es|]; Good(c, s) && |s.table| == 2 && s.table[0].state.Done? && Victim(s.table, s.seqno).None?
  {
    hide Next, Good, Enabled, IsTrace;
    ss, es := CycledRun(c, 254);
    AskStep(c, ss[|es|]);
    ss, es := Extend(c, ss, es, ASK);
    var s := ss[|es|];
    assert s.table[1].state.Asking? && s.seqno == 0 && Age(0, s.table[0]) == 0;
    assert FirstUnused(s.table, 0).None?;
    OldestIs(s.table, s.seqno, 2);
  }

  // ---- time to live

  /** Entry i holds the answer to query number n. */
  predicate Holds(s: State, i: nat, n: nat) {
    i < |s.table| && s.table[i].state.Done? && s.table[i].number == n
  }

  /** Query number n has left entry i for good, or is cached in it. */
  predicate Settled(s: State, i: nat, n: nat) {
    i < |s.table| && (s.table[i].number > n || (s.table[i].number == n && (s.table[i].state.Done? || s.table[i].state.Unused?)))
  }

  /** What happens to an entry that is not pending in a step. */
  lemma CheckIdle(c: Config, s: State, i: nat)
    requires Good(c, s) && i < |s.table| && !s.table[i].state.Asking?
    ensures CheckEntry(c, s, i, 0) == if s.table[i].state.Done? then Put(s, i, Aged(s.table[i])) else s
  {
  }

  lemma {:induction false} UpToIdle(c: Config, s: State, n: nat, i: nat)
    requires Good(c, s) && n <= |s.table| && i < |s.table| && !s.table[i].state.Asking?
    ensures CheckUpTo(c, s, n).table[i] == if i < n && s.table[i].state.Done? then Aged(s.table[i]) else s.table[i]
    decreases n
  {
    hide Good, CheckEntry;
    if n > 0 {
      UpToIdle(c, s, n - 1, i);
      var s1 := CheckUpTo(c, s, n - 1);
      CheckEntryGood(c, s1, n - 1, 0);
      CheckLocal(c, s1, n - 1, 0);
      if i == n - 1 { CheckIdle(c, s1, i); }
    }
  }

  lemma AskIdle(c: Config, s: State, name: seq<Byte>, addrType: AddrType, newId: nat, i: nat)
    requires Good(c, s) && (Fills(s, name, addrType) ==> Fresh(s.table, -1, newId)) && i < |s.table|
    ensures var s' := Enqueue(c, s, name, addrType, newId).0;
            |s'.table| == |s.table| && s.queries <= s'.queries && (s'.table[i] == s.table[i] || s'.table[i].number == s.queries)
  {
    hide Once, SameName, CheckEntry;
    var dup, slot, v := FirstDuplicate(s.table, name, addrType, 0), FirstFree(s.requests, 0), Victim(s.table, s.seqno);
    if !(dup.Some? && slot.Some?) && v.Some? && slot.Some? {
      FillLocal(c, s, v.value, slot.value, name, addrType, newId);
      FillNumber(c, s, v.value, slot.value, name, addrType, newId);
    }
  }

  lemma FillNumber(c: Config, s: State, i: nat, r: nat, name: seq<Byte>, addrType: AddrType, newId: nat)
    requires i < |s.table| && r < |s.requests| && 0 < |s.servers|
    ensures var s' := Fill(c, s, i, r, name, addrType, newId); |s'.table| == |s.table| && s'.table[i].number == s.queries <= s'.queries
  {
    var s1 := Put(Filled(s, i, r, name, addrType), i,
                  Filled(s, i, r, name, addrType).table[i].(txid := newId, state := Asking, server := 0, tmr := 1, retries := 0));
    CallKeepsTable(s1, i, NoAddress, |s1.requests|);
  }

  /** What one step does to an entry that holds an answer or is unused. */
  lemma NextIdle(c: Config, s: State, e: Event, i: nat)
    requires Good(c, s) && Enabled(s, e) && i < |s.table| && !s.table[i].state.Asking?
    ensures var s' := Next(c, s, e);
            && |s'.table| == |s.table|
            && (s'.table[i].number == s.queries || s'.table[i] == if e.Tick? && s.table[i].state.Done? then Aged(s.table[i]) else s.table[i])
  {
    hide Once, Enqueue, Receive;
    match e
    case Ask(name, addrType, newId) => AskIdle(c, s, name, addrType, newId, i);
    case Tick => UpToIdle(c, s, |s.table|, i);
    case Packet(txid, reply, newId) =>
      MatchIs(s.table, txid, 0);
      var m := Match(s.table, txid, 0);
      if m.Some? { ReceiveLocal(c, s, m.value, reply, newId); }
    case SetServer(k, on) =>
  }

  lemma FlushNumber(s: State, i: nat)
    requires i < |s.table|
    ensures Flush(s, i).table == s.table[i := s.table[i].(state := Unused)] && Flush(s, i).queries == s.queries
  {
    CallKeepsTable(s, i, NoAddress, |s.requests|);
  }

  lemma CheckNumber(c: Config, s: State, i: nat, txid: nat)
    requires i < |s.table| && 0 < |s.servers|
    requires s.table[i].state.Asking? ==> s.table[i].server < |s.servers| && s.table[i].tmr > 0
    ensures var s' := CheckEntry(c, s, i, txid);
            |s'.table| == |s.table| && s'.table[i].number == s.table[i].number && s'.queries == s.queries
  {
    hide Flush;
    var e := s.table[i];
    FlushNumber(Put(s, i, e.(tmr := 0, retries := e.retries + 1)), i);
    FlushNumber(Put(s, i, e.(txid := txid, state := Asking, server := 0, tmr := 1, retries := 0)), i);
    FlushNumber(Put(s, i, e.(tmr := e.retries + 1, retries := e.retries + 1)), i);
    FlushNumber(Put(s, i, e.(server := e.server + 1, tmr := 1, retries := 0)), i);
  }

  lemma {:induction false} UpToNumber(c: Config, s: State, n: nat, i: nat)
    requires Good(c, s) && n <= |s.table| && i < |s.table|
    ensures CheckUpTo(c, s, n).table[i].number == s.table[i].number && CheckUpTo(c, s, n).queries == s.queries
    decreases n
  {
    hide Good, CheckEntry;
    if n > 0 {
      UpToNumber(c, s, n - 1, i);
      var s1 := CheckUpTo(c, s, n - 1);
      CheckEntryGood(c, s1, n - 1, 0);
      CheckLocal(c, s1, n - 1, 0);
      assert |s1.servers| > 0 by { ServersSet(c, s1); }
      CheckNumber(c, s1, n - 1, 0);
    }
  }

  lemma ServersSet(c: Config, s: State)
    requires Good(c, s)
    ensures |s.servers| > 0 && c.maxRetries > 0
  {
  }

  lemma ReceiveNumber(c: Config, s: State, i: nat, reply: Reply, txid: nat)
    requires Good(c, s) && i < |s.table| && s.table[i].state.Asking?
    ensures EntryOk(c, |s.servers|, s.queries, s.table[i])
    ensures var s' := Receive(c, s, i, reply, txid);
            |s'.table| == |s.table| && s'.table[i].number == s.table[i].number && s'.queries == s.queries
  {
    hide Once, Flush, CheckEntry;
    var e := s.table[i];
    assert EntryOk(c, |s.servers|, s.queries, e);
    match reply
    case Ignored =>
    case Found(ttl, addr, v6) =>
      var t := Min(ttl, c.maxTtl);
      var s1 := Put(s, i, e.(state := Done, ttl := t, addr := addr, addrType := if v6 then V6 else V4, granted := t, aged := 0));
      CallKeepsTable(s1, i, Address(addr), |s.requests|);
    case Failure =>
      FlushNumber(s, i);
      CheckNumber(c, Put(s, i, e.(retries := c.maxRetries - 1, tmr := 1)), i, txid);
    case NothingUseful =>
      FlushNumber(s, i);
      CheckNumber(c, Put(s, i, e.(addrType := V6, state := New)), i, txid);
      CheckNumber(c, Put(s, i, e.(addrType := V4, state := New)), i, txid);
  }

  /** An entry keeps its query number until it is given to a new query. */
  lemma NumbersGrow(c: Config, s: State, e: Event, i: nat)
    requires Good(c, s) && Enabled(s, e) && i < |s.table|
    ensures |Next(c, s, e).table| == |s.table| && s.queries <= Next(c, s, e).queries
    ensures Next(c, s, e).table[i].number == s.table[i].number || Next(c, s, e).table[i].number == s.queries
  {
    hide Once, Enqueue, Receive;
    match e
    case Ask(name, addrType, newId) => AskIdle(c, s, name, addrType, newId, i);
    case Tick => UpToNumber(c, s, |s.table|, i);
    case Packet(txid, reply, newId) =>
      MatchIs(s.table, txid, 0);
      var m := Match(s.table, txid, 0);
      if m.Some? {
        ReceiveLocal(c, s, m.value, reply, newId);
        ReceiveNumber(c, s, m.value, reply, newId);
      }
    case SetServer(k, on) =>
  }

  /** Once query number n is answered, entry i holds its answer, ageing with every tick, or never again. */
  lemma SettledStays(c: Config, s: State, e: Event, i: nat, n: nat)
    requires Good(c, s) && Enabled(s, e) && Settled(s, i, n) && n < s.queries
    ensures Settled(Next(c, s, e), i, n)
    ensures Holds(Next(c, s, e), i, n) ==>
              Holds(s, i, n) && Next(c, s, e).table[i] == if e.Tick? then Aged(s.table[i]) else s.table[i]
  {
    hide Next;
    assert EntryOk(c, |s.servers|, s.queries, s.table[i]);
    NumbersGrow(c, s, e, i);
    if !s.table[i].state.Asking? { NextIdle(c, s, e, i); }
  }

  /** An answer found with a time to live of ttl ticks is kept for less than min(ttl, DNS_MAX_TTL) ticks after
      the one it arrived in; in particular it can be found by no lookup once that many ticks have passed. */
  lemma {:induction false} CachedWithinTtl(c: Config, ss: seq<State>, es: seq<Event>, i: nat, j: nat, k: nat, n: nat)
    requires IsTrace(c, ss, es) && i <= j <= |es| && Holds(ss[i], k, n)
    ensures Settled(ss[j], k, n) && n < ss[j].queries
    ensures Holds(ss[j], k, n) ==>
              && ss[j].table[k].granted == ss[i].table[k].granted <= c.maxTtl
              && ss[j].table[k].aged == ss[i].table[k].aged + Ticks(es, i, j) < ss[i].table[k].granted
    decreases j
  {
    hide Next;
    TraceGood(c, ss, es, j);
    TraceGood(c, ss, es, i);
    assert EntryOk(c, |ss[i].servers|, ss[i].queries, ss[i].table[k]);
    if i < j {
      CachedWithinTtl(c, ss, es, i, j - 1, k, n);
      TraceGood(c, ss, es, j - 1);
      assert Moves(c, ss[j - 1], es[j - 1], ss[j]);
      SettledStays(c, ss[j - 1], es[j - 1], k, n);
      NumbersGrow(c, ss[j - 1], es[j - 1], k);
      assert EntryOk(c, |ss[j].servers|, ss[j].queries, ss[j].table[k]);
    }
  }

  /** The answer a reply brings is granted min(ttl, DNS_MAX_TTL) ticks from now on; with none it is not kept at all. */
  lemma AnswerGranted(c: Config, s: State, i: nat, ttl: nat, addr: int, v6: bool, txid: nat)
    requires Good(c, s) && i < |s.table| && s.table[i].state.Asking?
    ensures EntryOk(c, |s.servers|, s.queries, s.table[i])
    ensures var s' := Receive(c, s, i, Found(ttl, addr, v6), txid);
            && (Min(ttl, c.maxTtl) > 0 ==>
                  Holds(s', i, s.table[i].number) && s'.table[i].granted == Min(ttl, c.maxTtl) && s'.table[i].aged == 0)
            && (Min(ttl, c.maxTtl) == 0 ==> |s'.table| == |s.table| && s'.table[i].state.Unused?)
  {
    hide Once;
    assert EntryOk(c, |s.servers|, s.queries, s.table[i]);
    var t := Min(ttl, c.maxTtl);
    CallKeepsTable(Put(s, i, s.table[i].(state := Done, ttl := t, addr := addr, addrType := if v6 then V6 else V4, granted := t, aged := 0)),
                   i, Address(addr), |s.requests|);
  }
}
