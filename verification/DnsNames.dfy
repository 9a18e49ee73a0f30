/** Whose answers the resolver gives: over every run, an address passed to a call, or found in the cache, came in a reply to
    the name that was asked for. */
module DnsNames {
  import opened Basics
  import opened DnsModel
  import opened DnsProofs
  import opened DnsRuns
  import opened DnsCache

  // ---- who asked for what

  /** Call number id was accepted in step k. */
  ghost predicate MadeIn(ss: seq<State>, es: seq<Event>, k: nat, id: nat)
    requires k < |es| < |ss|
  {
    es[k].Ask? && ss[k].accepted == id && ss[k + 1].accepted == id + 1
  }

  /** An entry of this kind serves who asked for that: it may have turned to the second family. */
  predicate Serves(asked: AddrType, now: AddrType) {
    now == asked || (asked.V4V6? && now.V6?) || (asked.V6V4? && now.V4?)
  }

  predicate AskedFor(e: Event, entry: Entry) {
    e.Ask? && SameName(e.name, entry.name) && Serves(e.addrType, entry.addrType)
  }

  // ---- what steps do to names

  /** Entries keep their names and families. */
  ghost predicate SameNames(s: State, s': State) {
    |s'.table| == |s.table| && forall j {:trigger s'.table[j]} :: 0 <= j < |s.table| ==>
      s'.table[j].name == s.table[j].name && s'.table[j].addrType == s.table[j].addrType && s'.table[j].addr == s.table[j].addr
  }

  lemma FlushNames(s: State, i: nat)
    requires i < |s.table|
    ensures SameNames(s, Flush(s, i)) && Flush(s, i).table[i].state.Unused?
  {
    CallKeepsTable(s, i, NoAddress, |s.requests|);
  }

  lemma SendNames(s: State, s1: State, i: nat)
    requires i < |s1.table| && s1.table[i].server < |s1.servers| && SameNames(s, s1)
    ensures SameNames(s, Send(s1, i))
  {
    hide Flush;
    if !s1.servers[s1.table[i].server] { FlushNames(s1, i); }
  }

  lemma CheckNames(c: Config, s: State, i: nat, txid: nat)
    requires i < |s.table| && 0 < |s.servers|
    requires s.table[i].state.Asking? ==> s.table[i].server < |s.servers| && s.table[i].tmr > 0
    ensures SameNames(s, CheckEntry(c, s, i, txid))
  {
    hide Flush, Send;
    var e := s.table[i];
    match e.state
    case New => SendNames(s, Put(s, i, e.(txid := txid, state := Asking, server := 0, tmr := 1, retries := 0)), i);
    case Asking =>
      if e.tmr - 1 != 0 {
      } else if e.retries + 1 != c.maxRetries {
        SendNames(s, Put(s, i, e.(tmr := e.retries + 1, retries := e.retries + 1)), i);
      } else if Backup(s, e) {
        SendNames(s, Put(s, i, e.(server := e.server + 1, tmr := 1, retries := 0)), i);
      } else {
        FlushNames(Put(s, i, e.(tmr := 0, retries := e.retries + 1)), i);
      }
    case _ =>
  }

  lemma {:induction false} TickNames(c: Config, s: State, n: nat)
    requires Good(c, s) && n <= |s.table|
    ensures SameNames(s, CheckUpTo(c, s, n))
    decreases n
  {
    hide Good, CheckEntry;
    if n > 0 {
      TickNames(c, s, n - 1);
      var s1 := CheckUpTo(c, s, n - 1);
      CheckKeeps(c, s1, n - 1);
      CheckNames(c, s1, n - 1, 0);
    }
  }

  /** A reply keeps the name of its entry; the family changes only when the second one is tried, or to that of the address. */
  lemma ReceiveNames(c: Config, s: State, i: nat, reply: Reply, txid: nat)
    requires Good(c, s) && i < |s.table| && s.table[i].state.Asking?
    ensures EntryOk(c, |s.servers|, s.queries, s.table[i])
    ensures var e, s' := s.table[i], Receive(c, s, i, reply, txid);
            && |s'.table| == |s.table| && s'.table[i].name == e.name
            && (reply.Found? ==> s'.table[i].addr == reply.addr && s'.table[i].addrType == (if reply.v6 then V6 else V4) && !s'.table[i].state.Asking?)
            && (!reply.Found? ==> Serves(e.addrType, s'.table[i].addrType) && !s'.table[i].state.Done?)
  {
    hide Once, Flush, CheckEntry;
    var e := s.table[i];
    assert EntryOk(c, |s.servers|, s.queries, e);
    match reply
    case Ignored =>
    case Found(ttl, addr, v6) =>
      var t := Min(ttl, c.maxTtl);
      CallKeepsTable(Put(s, i, e.(state := Done, ttl := t, addr := addr, addrType := if v6 then V6 else V4, granted := t, aged := 0)), i, Address(addr), |s.requests|);
    case Failure =>
      FlushNames(s, i);
      var s1 := Put(s, i, e.(retries := c.maxRetries - 1, tmr := 1));
      if Backup(s, e) {
        CheckNames(c, s1, i, txid);
        CheckNotDone(c, s1, i, txid);
      }
    case NothingUseful =>
      FlushNames(s, i);
      if Restarts(e, reply) {
        var s1 := Put(s, i, e.(addrType := if e.addrType.V4V6? then V6 else V4, state := New));
        CheckNames(c, s1, i, txid);
        CheckNotDone(c, s1, i, txid);
      }
  }

  /** A query that is not done is not done by waiting. */
  lemma CheckNotDone(c: Config, s: State, i: nat, txid: nat)
    requires i < |s.table| && 0 < |s.servers| && !s.table[i].state.Done?
    requires s.table[i].state.Asking? ==> s.table[i].server < |s.servers| && s.table[i].tmr > 0
    ensures |CheckEntry(c, s, i, txid).table| == |s.table| && !CheckEntry(c, s, i, txid).table[i].state.Done?
  {
    hide Flush;
    var e := s.table[i];
    FlushNames(Put(s, i, e.(txid := txid, state := Asking, server := 0, tmr := 1, retries := 0)), i);
    FlushNames(Put(s, i, e.(tmr := e.retries + 1, retries := e.retries + 1)), i);
    FlushNames(Put(s, i, e.(server := e.server + 1, tmr := 1, retries := 0)), i);
    FlushNames(Put(s, i, e.(tmr := 0, retries := e.retries + 1)), i);
  }

  /** Request slot r stays with what it waits for, or has just been taken by a call for the name of its entry. */
  ghost predicate SlotStep(s: State, e: Event, s': State, r: nat)
    requires r < |s'.requests| && s'.requests[r].Some?
  {
    var idx := s'.requests[r].value.idx;
    && idx < |s'.table|
    && (|| (r < |s.requests| && s.requests[r] == s'.requests[r] && idx < |s.table| && s'.table[idx].name == s.table[idx].name
            && Serves(s.table[idx].addrType, s'.table[idx].addrType))
        || (e.Ask? && s'.requests[r].value.id == s.accepted && s'.accepted == s.accepted + 1 && AskedFor(e, s'.table[idx])))
  }

  lemma AskSlot(c: Config, s: State, name: seq<Byte>, addrType: AddrType, newId: nat, r: nat)
    requires Good(c, s) && (Fills(s, name, addrType) ==> Fresh(s.table, -1, newId))
    requires var s' := Enqueue(c, s, name, addrType, newId).0; r < |s'.requests| && s'.requests[r].Some?
    ensures SlotStep(s, Ask(name, addrType, newId), Enqueue(c, s, name, addrType, newId).0, r)
  {
    hide Once, CheckEntry;
    var s' := Enqueue(c, s, name, addrType, newId).0;
    AskKeeps(c, s, name, addrType, newId);
    EnqueueGood(c, s, name, addrType, newId);
    var dup, slot, v := FirstDuplicate(s.table, name, addrType, 0), FirstFree(s.requests, 0), Victim(s.table, s.seqno);
    if s.requests[r].None? && !(dup.Some? && slot.Some?) && v.Some? && slot.Some? {
      FillName(c, s, v.value, slot.value, name, addrType, newId, r);
    }
  }

  lemma FillName(c: Config, s: State, i: nat, q: nat, name: seq<Byte>, addrType: AddrType, newId: nat, r: nat)
    requires Good(c, s) && i < |s.table| && q < |s.requests| && s.requests[q].None? && !s.table[i].state.Asking? && Fresh(s.table, i, newId)
    requires r < |s.requests| && s.requests[r].None?
    ensures var s' := Fill(c, s, i, q, name, addrType, newId);
            && |s'.table| == |s.table| && |s'.requests| == |s.requests| && s'.accepted == s.accepted + 1
            && s'.table[i].name == name && s'.table[i].addrType == addrType
            && (s'.requests[r].Some? ==> r == q && s'.requests[r].value == Request(s.accepted, i))
  {
    hide Once, CheckEntry;
    var s1 := Filled(s, i, q, name, addrType);
    FilledReady(c, s, i, q, name, addrType);
    NewLocal(c, s1, i, newId);
    CheckNames(c, s1, i, newId);
  }

  lemma NamesStep(c: Config, s: State, e: Event, r: nat)
    requires Good(c, s) && Enabled(s, e)
    requires var s' := Next(c, s, e); r < |s'.requests| && s'.requests[r].Some?
    ensures SlotStep(s, e, Next(c, s, e), r)
  {
    hide Once, Enqueue, Receive;
    var s' := Next(c, s, e);
    NextGood(c, s, e);
    match e {
      case Ask(name, addrType, newId) => AskSlot(c, s, name, addrType, newId, r);
      case Tick =>
        TickNames(c, s, |s.table|);
        TickSlots(c, s, |s.table|);
      case Packet(txid, reply, newId) =>
        MatchIs(s.table, txid, 0);
        var m := Match(s.table, txid, 0);
        if m.Some? {
          ReceiveLocal(c, s, m.value, reply, newId);
          ReceiveNames(c, s, m.value, reply, newId);
        }
      case SetServer(k, on) =>
    }
  }

  /** A tick frees request slots, and takes none. */
  lemma {:induction false} TickSlots(c: Config, s: State, n: nat)
    requires Good(c, s) && n <= |s.table|
    ensures var s' := CheckUpTo(c, s, n);
            |s'.requests| == |s.requests| && forall r {:trigger s'.requests[r]} :: 0 <= r < |s.requests| && s'.requests[r].Some? ==> s'.requests[r] == s.requests[r]
    decreases n
  {
    hide Good, CheckEntry;
    if n > 0 {
      TickSlots(c, s, n - 1);
      var s1 := CheckUpTo(c, s, n - 1);
      CheckKeeps(c, s1, n - 1);
      CheckLocal(c, s1, n - 1, 0);
    }
  }

  /** Over every run: a request waits for an entry with the name, and of the family, that its call asked for. */
  lemma {:induction false} WaitsForName(c: Config, ss: seq<State>, es: seq<Event>, i: nat, r: nat) returns (k: nat)
    requires IsTrace(c, ss, es) && i <= |es| && r < |ss[i].requests| && ss[i].requests[r].Some?
    ensures k < i && MadeIn(ss, es, k, ss[i].requests[r].value.id)
    ensures ss[i].requests[r].value.idx < |ss[i].table| && AskedFor(es[k], ss[i].table[ss[i].requests[r].value.idx])
  {
    hide Next, Good, SameName;
    assert i > 0;
    TraceGood(c, ss, es, i - 1);
    assert Moves(c, ss[i - 1], es[i - 1], ss[i]);
    NamesStep(c, ss[i - 1], es[i - 1], r);
    var id, idx := ss[i].requests[r].value.id, ss[i].requests[r].value.idx;
    if es[i - 1].Ask? && id == ss[i - 1].accepted && ss[i].accepted == ss[i - 1].accepted + 1 && AskedFor(es[i - 1], ss[i].table[idx]) {
      k := i - 1;
    } else {
      k := WaitsForName(c, ss, es, i - 1, r);
    }
  }

  // ---- what is answered

  ghost predicate Had(s: State, id: nat, idx: nat) {
    exists r :: 0 <= r < |s.requests| && s.requests[r] == Some(Request(id, idx))
  }

  /** The callbacks between s and s' are for those who waited for entry i, with this answer. */
  ghost predicate Calls(s: State, s': State, i: nat, a: Answer) {
    && s.log <= s'.log
    && forall n {:trigger s'.log[n]} :: |s.log| <= n < |s'.log| ==> s'.log[n].answer == a && Had(s, s'.log[n].id, i)
  }

  lemma {:induction false} SlotUntouched(s: State, idx: nat, a: Answer, n: nat, r: nat)
    requires n <= r < |s.requests|
    ensures CallUpTo(s, idx, a, n).requests[r] == s.requests[r]
    decreases n
  {
    if n > 0 { SlotUntouched(s, idx, a, n - 1, r); }
  }

  lemma {:induction false} CallUpToCalls(s: State, idx: nat, a: Answer, n: nat)
    requires n <= |s.requests|
    ensures Calls(s, CallUpTo(s, idx, a, n), idx, a)
    decreases n
  {
    if n > 0 {
      CallUpToCalls(s, idx, a, n - 1);
      SlotUntouched(s, idx, a, n - 1, n - 1);
      if WaitsFor(s.requests[n - 1], idx) { assert Had(s, s.requests[n - 1].value.id, idx); }
    }
  }

  lemma FlushCalls(s: State, s1: State, i: nat)
    requires i < |s1.table| && s1.requests == s.requests && s1.log == s.log
    ensures Calls(s, Flush(s1, i), i, NoAddress)
  {
    CallUpToCalls(s1, i, NoAddress, |s1.requests|);
    forall id: nat | Had(s1, id, i) ensures Had(s, id, i) {
      var r :| 0 <= r < |s1.requests| && s1.requests[r] == Some(Request(id, i));
      assert s.requests[r] == Some(Request(id, i));
    }
  }

  /** There is a server behind the one asked, and it is set. */
  predicate Further(servers: seq<bool>, k: nat) {
    exists next {:trigger servers[next]} :: next == k + 1 && 0 <= next < |servers| && servers[next]
  }

  lemma FurtherIs(s: State, e: Entry)
    ensures Further(s.servers, e.server) <==> Backup(s, e)
  {
    if Backup(s, e) { assert s.servers[e.server + 1]; }
  }

  /** Why entry m is given up in this step: its last server stays silent and there is no backup, the server to ask is not
      set, or a reply leaves nothing to try. */
  predicate GivesUp(c: Config, s: State, e: Event, m: nat)
    requires m < |s.table| && s.table[m].server < |s.servers|
  {
    var q := s.table[m];
    match e
    case Tick => q.tmr == 1 && (if q.retries + 1 == c.maxRetries then !Further(s.servers, q.server) else !s.servers[q.server])
    case Packet(txid, reply, newId) =>
      && Match(s.table, txid, 0) == Some(m)
      && (|| (reply.Failure? && !Further(s.servers, q.server))
          || (reply.NothingUseful? && (Fallbacks(q.addrType) == 0 || !s.servers[0])))
    case _ => false
  }

  /** A check of a pending entry calls somebody only if the entry is given up, and then everybody who waits for it. */
  lemma CheckCalls(c: Config, s: State, i: nat, txid: nat)
    requires Good(c, s) && i < |s.table| && s.table[i].state.Asking?
    ensures EntryOk(c, |s.servers|, s.queries, s.table[i])
    ensures var s' := CheckEntry(c, s, i, txid); if GivesUp(c, s, Tick, i) then GaveUp(s, s', i) else s'.log == s.log
  {
    hide Once, Flush, Further;
    var e := s.table[i];
    assert EntryOk(c, |s.servers|, s.queries, e);
    FurtherIs(s, e);
    if GivesUp(c, s, Tick, i) {
      FlushGives(s, Put(s, i, e.(tmr := e.retries + 1, retries := e.retries + 1)), i);
      FlushGives(s, Put(s, i, e.(tmr := 0, retries := e.retries + 1)), i);
    }
  }

  /** Everybody who waited for entry i, and nobody else, has been told that there is no address. */
  ghost predicate GaveUp(s: State, s': State, i: nat) {
    && Calls(s, s', i, NoAddress)
    && forall r {:trigger s.requests[r]} :: 0 <= r < |s.requests| && WaitsFor(s.requests[r], i) ==>
         AnsweredWith(s'.log, |s.log|, s.requests[r].value.id, NoAddress)
  }

  lemma FlushGives(s: State, s1: State, i: nat)
    requires i < |s1.table| && Once(s.requests, s.log, s.accepted) && s1.requests == s.requests && s1.log == s.log && s1.accepted == s.accepted
    ensures GaveUp(s, Flush(s1, i), i)
  {
    hide Once, CallFound;
    FlushCalls(s, s1, i);
    forall r {:trigger s.requests[r]} | 0 <= r < |s.requests| && WaitsFor(s.requests[r], i)
      ensures AnsweredWith(Flush(s1, i).log, |s.log|, s.requests[r].value.id, NoAddress)
    {
      CallFoundAnswers(s1, i, NoAddress, r);
    }
  }

  /** What a reply makes known: an address to everybody who waits, that there is none, or nothing. */
  lemma ReceiveCalls(c: Config, s: State, i: nat, reply: Reply, txid: nat, newId: nat)
    requires Good(c, s) && i < |s.table| && s.table[i].state.Asking? && Match(s.table, txid, 0) == Some(i)
    ensures EntryOk(c, |s.servers|, s.queries, s.table[i])
    ensures var s' := Receive(c, s, i, reply, newId);
            if reply.Found? then Calls(s, s', i, Address(reply.addr))
            else if GivesUp(c, s, Packet(txid, reply, newId), i) then GaveUp(s, s', i)
            else s'.log == s.log
  {
    hide Once, Flush, CallFound, Further;
    var e := s.table[i];
    assert EntryOk(c, |s.servers|, s.queries, e);
    FurtherIs(s, e);
    match reply
    case Ignored =>
    case Found(ttl, addr, v6) => ResolveCalls(c, s, i, ttl, addr, v6);
    case Failure => if !Backup(s, e) { FlushGives(s, s, i); }
    case NothingUseful =>
      if Fallbacks(e.addrType) == 0 {
        FlushGives(s, s, i);
      } else if !s.servers[0] {
        var e1 := e.(addrType := if e.addrType.V4V6? then V6 else V4, state := New);
        assert Put(Put(s, i, e1), i, e1.(txid := newId, state := Asking, server := 0, tmr := 1, retries := 0)).log == s.log;
        FlushGives(s, Put(Put(s, i, e1), i, e1.(txid := newId, state := Asking, server := 0, tmr := 1, retries := 0)), i);
      }
  }

  lemma ResolveCalls(c: Config, s: State, i: nat, ttl: nat, addr: int, v6: bool)
    requires i < |s.table|
    ensures Calls(s, Resolve(c, s, i, ttl, addr, v6), i, Address(addr))
  {
    var t := Min(ttl, c.maxTtl);
    var s1 := Put(s, i, s.table[i].(state := Done, ttl := t, addr := addr, addrType := if v6 then V6 else V4, granted := t, aged := 0));
    CallUpToCalls(s1, i, Address(addr), |s1.requests|);
    forall id: nat | Had(s1, id, i) ensures Had(s, id, i) {
      var r :| 0 <= r < |s1.requests| && s1.requests[r] == Some(Request(id, i));
      assert s.requests[r] == Some(Request(id, i));
    }
  }

  /** Entries that a tick has not come to yet are as before. */
  lemma {:induction false} TickRest(c: Config, s: State, n: nat, j: nat)
    requires Good(c, s) && n <= j < |s.table|
    ensures CheckUpTo(c, s, n).table[j] == s.table[j]
    decreases n
  {
    hide Good, CheckEntry;
    if n > 0 {
      TickRest(c, s, n - 1, j);
      CheckLocal(c, CheckUpTo(c, s, n - 1), n - 1, 0);
    }
  }

  /** The callbacks since n are all told that there is no address. */
  ghost predicate NoneFound(log: seq<Call>, n: nat) {
    forall k {:trigger log[k]} :: n <= k < |log| ==> log[k].answer.NoAddress?
  }

  /** Two slots do not wait with the same call. */
  lemma OneSlot(c: Config, s: State, r: nat, id: nat, idx: nat)
    requires Good(c, s) && r < |s.requests| && s.requests[r].Some? && s.requests[r].value.id == id && Had(s, id, idx)
    ensures s.requests[r].value.idx == idx
  {
  }

  lemma CheckQuiet(c: Config, s: State, i: nat)
    requires Good(c, s) && i < |s.table| && !s.table[i].state.Asking?
    ensures |s.servers| > 0 && CheckEntry(c, s, i, 0).log == s.log
  {
    assert EntryOk(c, |s.servers|, s.queries, s.table[i]);
  }

  lemma CheckNone(c: Config, s: State, i: nat)
    requires Good(c, s) && i < |s.table|
    ensures EntryOk(c, |s.servers|, s.queries, s.table[i]) && |s.servers| > 0
    ensures s.log <= CheckEntry(c, s, i, 0).log && NoneFound(CheckEntry(c, s, i, 0).log, |s.log|)
  {
    hide Once, CheckEntry, GivesUp;
    assert EntryOk(c, |s.servers|, s.queries, s.table[i]);
    if s.table[i].state.Asking? { CheckCalls(c, s, i, 0); } else { CheckQuiet(c, s, i); }
  }

  /** A tick finds no address for anybody. */
  lemma {:induction false} TickNone(c: Config, s: State, n: nat)
    requires Good(c, s) && n <= |s.table|
    ensures s.log <= CheckUpTo(c, s, n).log && NoneFound(CheckUpTo(c, s, n).log, |s.log|)
    decreases n
  {
    hide Good, CheckEntry;
    if n > 0 {
      TickNone(c, s, n - 1);
      CheckNone(c, CheckUpTo(c, s, n - 1), n - 1);
    }
  }

  /** One entry is checked: who waits in slot r is told exactly if it is that entry and it is given up. */
  lemma CheckAnswers(c: Config, s: State, i: nat, r: nat)
    requires Good(c, s) && i < |s.table| && r < |s.requests| && s.requests[r].Some?
    ensures EntryOk(c, |s.servers|, s.queries, s.table[i])
    ensures var s', q := CheckEntry(c, s, i, 0), s.requests[r].value;
            AnsweredWith(s'.log, |s.log|, q.id, NoAddress) <==> q.idx == i && s.table[i].state.Asking? && GivesUp(c, s, Tick, i)
  {
    hide Once, CheckEntry, GivesUp;
    var s', q := CheckEntry(c, s, i, 0), s.requests[r].value;
    assert EntryOk(c, |s.servers|, s.queries, s.table[i]);
    if s.table[i].state.Asking? {
      CheckCalls(c, s, i, 0);
      if AnsweredWith(s'.log, |s.log|, q.id, NoAddress) {
        var k :| |s.log| <= k < |s'.log| && s'.log[k] == Call(q.id, NoAddress);
        assert Had(s, q.id, i);
        OneSlot(c, s, r, q.id, i);
      }
    } else {
      CheckQuiet(c, s, i);
    }
  }

  /** A callback after a's is one up to b or one after that. */
  lemma AnsweredJoins(a: seq<Call>, b: seq<Call>, d: seq<Call>, id: nat, x: Answer)
    requires a <= b <= d
    ensures AnsweredWith(d, |a|, id, x) <==> AnsweredWith(b, |a|, id, x) || AnsweredWith(d, |b|, id, x)
  {
    if AnsweredWith(b, |a|, id, x) {
      var k :| |a| <= k < |b| && b[k] == Call(id, x);
      assert d[k] == Call(id, x);
    }
    if AnsweredWith(d, |a|, id, x) {
      var k :| |a| <= k < |d| && d[k] == Call(id, x);
      assert k < |b| ==> b[k] == Call(id, x);
    }
  }

  /** A call that is answered after all was answered just now. */
  lemma LoggedNow(c: Config, s: State, log: seq<Call>, r: nat)
    requires Good(c, s) && r < |s.requests| && s.requests[r].Some? && s.log <= log && Logged(log, s.requests[r].value.id)
    ensures exists x :: AnsweredWith(log, |s.log|, s.requests[r].value.id, x)
  {
    var id := s.requests[r].value.id;
    var k :| 0 <= k < |log| && log[k].id == id;
    assert forall m {:trigger s.log[m]} :: 0 <= m < |s.log| ==> s.log[m].id == log[m].id != id;
    assert AnsweredWith(log, |s.log|, id, log[k].answer);
  }

  /** Who waits in slot r is told by a tick exactly if its entry is given up. */
  lemma {:induction false} TickAnswers(c: Config, s: State, n: nat, r: nat)
    requires Good(c, s) && n <= |s.table| && r < |s.requests| && s.requests[r].Some?
    ensures s.requests[r].value.idx < |s.table| && s.table[s.requests[r].value.idx].server < |s.servers|
    ensures AnsweredWith(CheckUpTo(c, s, n).log, |s.log|, s.requests[r].value.id, NoAddress)
            <==> s.requests[r].value.idx < n && GivesUp(c, s, Tick, s.requests[r].value.idx)
    decreases n
  {
    hide Good, CheckEntry, GivesUp, AnsweredWith, NoneFound;
    SlotFacts(c, s, r);
    var q := s.requests[r].value;
    TickNone(c, s, n);
    if n > 0 {
      TickAnswers(c, s, n - 1, r);
      TickNone(c, s, n - 1);
      var s1, s' := CheckUpTo(c, s, n - 1), CheckUpTo(c, s, n);
      TickRest(c, s, n - 1, n - 1);
      CheckNone(c, s1, n - 1);
      AnsweredJoins(s.log, s1.log, s'.log, q.id, NoAddress);
      UpToCarries(c, s, n - 1, r);
      if Logged(s1.log, q.id) {
        ToldByTick(c, s, n - 1, r);
      } else {
        CheckAnswers(c, s1, n - 1, r);
        if q.idx == n - 1 { SameReason(c, s, s1, n - 1); }
      }
    } else {
      NotYet(s.log, q.id, NoAddress);
    }
  }

  lemma NotYet(log: seq<Call>, id: nat, x: Answer)
    ensures !AnsweredWith(log, |log|, id, x)
  {
  }

  lemma SameReason(c: Config, s: State, s1: State, i: nat)
    requires i < |s.table| == |s1.table| && s1.table[i] == s.table[i] && s1.servers == s.servers && s.table[i].server < |s.servers|
    ensures GivesUp(c, s, Tick, i) == GivesUp(c, s1, Tick, i)
  {
  }

  lemma ToldByTick(c: Config, s: State, n: nat, r: nat)
    requires Good(c, s) && n <= |s.table| && r < |s.requests| && s.requests[r].Some?
    requires Logged(CheckUpTo(c, s, n).log, s.requests[r].value.id)
    ensures AnsweredWith(CheckUpTo(c, s, n).log, |s.log|, s.requests[r].value.id, NoAddress)
  {
    hide Good;
    TickNone(c, s, n);
    LoggedNow(c, s, CheckUpTo(c, s, n).log, r);
    var x :| AnsweredWith(CheckUpTo(c, s, n).log, |s.log|, s.requests[r].value.id, x);
  }

  // ---- one step, for one who waits

  /** This answer is due to who waits for entry m. */
  predicate Due(c: Config, s: State, e: Event, m: nat, a: Answer)
    requires m < |s.table| && s.table[m].server < |s.servers|
  {
    match a
    case NoAddress => GivesUp(c, s, e, m)
    case Address(addr) => e.Packet? && Match(s.table, e.txid, 0) == Some(m) && e.reply.Found? && e.reply.addr == addr
  }

  /** A new query calls nobody else: its own caller at once if there is no server to ask. */
  lemma {:induction false} OnlyCalled(s: State, idx: nat, a: Answer, n: nat, q: nat)
    requires n <= |s.requests| && q < |s.requests| && s.requests[q].Some?
    requires forall r {:trigger s.requests[r]} :: 0 <= r < |s.requests| ==> (WaitsFor(s.requests[r], idx) <==> r == q)
    ensures CallUpTo(s, idx, a, n).log == s.log + (if q < n then [Call(s.requests[q].value.id, a)] else [])
    decreases n
  {
    if n > 0 {
      OnlyCalled(s, idx, a, n - 1, q);
      SlotUntouched(s, idx, a, n - 1, n - 1);
    }
  }

  lemma FillAnswers(c: Config, s: State, i: nat, q: nat, name: seq<Byte>, addrType: AddrType, newId: nat)
    requires Good(c, s) && i < |s.table| && q < |s.requests| && s.requests[q].None? && !s.table[i].state.Asking?
    ensures |s.servers| > 0
    ensures Fill(c, s, i, q, name, addrType, newId).log == s.log + (if s.servers[0] then [] else [Call(s.accepted, NoAddress)])
  {
    hide Once;
    var s1 := Filled(s, i, q, name, addrType);
    var s2 := Put(s1, i, s1.table[i].(txid := newId, state := Asking, server := 0, tmr := 1, retries := 0));
    forall r {:trigger s2.requests[r]} | 0 <= r < |s2.requests| ensures WaitsFor(s2.requests[r], i) <==> r == q {
      assert r != q ==> s2.requests[r] == s.requests[r];
    }
    OnlyCalled(s2, i, NoAddress, |s2.requests|, q);
  }

  lemma AskAnswers(c: Config, s: State, name: seq<Byte>, addrType: AddrType, newId: nat)
    requires Good(c, s)
    ensures |s.servers| > 0
    ensures Enqueue(c, s, name, addrType, newId).0.log
            == s.log + (if Fills(s, name, addrType) && !s.servers[0] then [Call(s.accepted, NoAddress)] else [])
  {
    hide Good, Fill, FirstDuplicate, FirstFree, Victim;
    ServersSet(c, s);
    if Fills(s, name, addrType) {
      NotPending(s);
      FillAnswers(c, s, Victim(s.table, s.seqno).value, FirstFree(s.requests, 0).value, name, addrType, newId);
    }
  }

  lemma NotPending(s: State)
    ensures var v := Victim(s.table, s.seqno); v.Some? ==> v.value < |s.table| && !s.table[v.value].state.Asking?
  {
  }

  /** Nobody who waits is told anything by a new query. */
  lemma AskTellsNobody(c: Config, s: State, name: seq<Byte>, addrType: AddrType, newId: nat, r: nat, a: Answer)
    requires Good(c, s) && r < |s.requests| && s.requests[r].Some?
    ensures |s.servers| > 0
    ensures !AnsweredWith(Enqueue(c, s, name, addrType, newId).0.log, |s.log|, s.requests[r].value.id, a)
  {
    hide Enqueue, Fills;
    AskAnswers(c, s, name, addrType, newId);
  }

  lemma PacketAnswers(c: Config, s: State, txid: nat, reply: Reply, newId: nat, r: nat, a: Answer)
    requires Good(c, s) && r < |s.requests| && s.requests[r].Some?
    ensures s.requests[r].value.idx < |s.table| && s.table[s.requests[r].value.idx].server < |s.servers|
    ensures AnsweredWith(Arrive(c, s, txid, reply, newId).log, |s.log|, s.requests[r].value.id, a)
            <==> Due(c, s, Packet(txid, reply, newId), s.requests[r].value.idx, a)
  {
    hide Once, Receive, Match;
    SlotFacts(c, s, r);
    var q, s', e := s.requests[r].value, Arrive(c, s, txid, reply, newId), Packet(txid, reply, newId);
    MatchIs(s.table, txid, 0);
    var m := Match(s.table, txid, 0);
    if m.Some? {
      ReceiveCalls(c, s, m.value, reply, txid, newId);
      if AnsweredWith(s'.log, |s.log|, q.id, a) {
        var k :| |s.log| <= k < |s'.log| && s'.log[k] == Call(q.id, a);
        assert Had(s, q.id, m.value);
        OneSlot(c, s, r, q.id, m.value);
      }
      if reply.Found? && m.value == q.idx {
        RightAnswers(c, s, m.value, r, reply.ttl, reply.addr, reply.v6);
        assert s' == Resolve(c, s, m.value, reply.ttl, reply.addr, reply.v6) by { FoundResolves(c, s, m.value, reply, newId); }
      }
    }
  }

  lemma FoundResolves(c: Config, s: State, i: nat, reply: Reply, txid: nat)
    requires i < |s.table| && s.table[i].state.Asking? && s.table[i].server < |s.servers| && c.maxRetries > 0 && reply.Found?
    ensures Receive(c, s, i, reply, txid) == Resolve(c, s, i, reply.ttl, reply.addr, reply.v6)
  {
  }

  /** In every step, who waits in slot r gets exactly the answer that is due: an address exactly if this very reply to the
      query waited for brings it, no address exactly if the query is given up. */
  lemma StepAnswers(c: Config, s: State, e: Event, r: nat, a: Answer)
    requires Good(c, s) && Enabled(s, e) && r < |s.requests| && s.requests[r].Some?
    ensures s.requests[r].value.idx < |s.table| && s.table[s.requests[r].value.idx].server < |s.servers|
    ensures AnsweredWith(Next(c, s, e).log, |s.log|, s.requests[r].value.id, a) <==> Due(c, s, e, s.requests[r].value.idx, a)
  {
    hide Good, Enqueue, Arrive, GivesUp;
    SlotFacts(c, s, r);
    match e
    case Ask(name, addrType, newId) =>
      AskTellsNobody(c, s, name, addrType, newId, r, a);
      AskDue(c, s, e, s.requests[r].value.idx);
    case Tick =>
      TickAnswers(c, s, |s.table|, r);
      TickNone(c, s, |s.table|);
    case Packet(txid, reply, newId) => PacketAnswers(c, s, txid, reply, newId, r, a);
    case SetServer(k, on) => AskDue(c, s, e, s.requests[r].value.idx);
  }

  lemma AskDue(c: Config, s: State, e: Event, m: nat)
    requires (e.Ask? || e.SetServer?) && m < |s.table| && s.table[m].server < |s.servers|
    ensures !GivesUp(c, s, e, m)
  {
  }

  // ---- every run

  /** A callback made in this step is for one who waited, or for the very call made in this step. */
  lemma NewCall(c: Config, s: State, e: Event, n: nat)
    requires Good(c, s) && Enabled(s, e) && |s.log| <= n < |Next(c, s, e).log|
    ensures Waiting(s.requests, Next(c, s, e).log[n].id) || (e.Ask? && Next(c, s, e).log[n] == Call(s.accepted, NoAddress))
  {
    hide Next;
    NextGood(c, s, e);
    NextLogGrows(c, s, e);
    var s' := Next(c, s, e);
    var id := s'.log[n].id;
    forall k {:trigger s.log[k]} | 0 <= k < |s.log| ensures s.log[k].id != id {
      assert s'.log[k].id != s'.log[n].id;
    }
    assert !Logged(s.log, id);
    AskedOnly(c, s, e);
  }

  /** Only a new call is counted, and only it is told at once. */
  lemma AskedOnly(c: Config, s: State, e: Event)
    requires Good(c, s) && Enabled(s, e)
    ensures var s' := Next(c, s, e);
            && s.accepted <= s'.accepted <= s.accepted + (if e.Ask? then 1 else 0)
            && (e.Ask? ==> s'.log == s.log || s'.log == s.log + [Call(s.accepted, NoAddress)])
  {
    hide Once, Receive, CheckEntry;
    match e
    case Ask(name, addrType, newId) =>
      AskAnswers(c, s, name, addrType, newId);
      if Fills(s, name, addrType) {
        FillName(c, s, Victim(s.table, s.seqno).value, FirstFree(s.requests, 0).value, name, addrType, newId, FirstFree(s.requests, 0).value);
      }
    case Tick => TickAccepted(c, s, |s.table|);
    case Packet(txid, reply, newId) =>
      MatchIs(s.table, txid, 0);
      var m := Match(s.table, txid, 0);
      if m.Some? { ReceiveLocal(c, s, m.value, reply, newId); }
    case SetServer(k, on) =>
  }

  lemma {:induction false} TickAccepted(c: Config, s: State, n: nat)
    requires Good(c, s) && n <= |s.table|
    ensures CheckUpTo(c, s, n).accepted == s.accepted
    decreases n
  {
    hide Good, CheckEntry;
    if n > 0 {
      TickAccepted(c, s, n - 1);
      CheckLocal(c, CheckUpTo(c, s, n - 1), n - 1, 0);
    }
  }

  /** Call id was made in step k, waits for entry idx before step m, and gets this answer in step m. */
  ghost predicate Told(c: Config, ss: seq<State>, es: seq<Event>, k: nat, m: nat, idx: nat, call: Call)
    requires |es| < |ss|
  {
    && k < m < |es| && MadeIn(ss, es, k, call.id)
    && idx < |ss[m].table| && ss[m].table[idx].state.Asking? && ss[m].table[idx].server < |ss[m].servers|
    && AskedFor(es[k], ss[m].table[idx]) && Due(c, ss[m], es[m], idx, call.answer)
  }

  /** Over every run: a callback with an address stems from a reply to a query for the name, and of the family, that its
      call asked for; one without stems from giving up such a query, or there was no server to ask. */
  lemma {:induction false} AnswerStems(c: Config, ss: seq<State>, es: seq<Event>, i: nat, n: nat) returns (k: nat, m: nat, idx: nat)
    requires IsTrace(c, ss, es) && i <= |es| && n < |ss[i].log|
    ensures k <= m < i
    ensures Told(c, ss, es, k, m, idx, ss[i].log[n])
            || (k == m && MadeIn(ss, es, k, ss[i].log[n].id) && ss[i].log[n].answer.NoAddress? && |ss[k].servers| > 0 && !ss[k].servers[0])
    decreases i
  {
    hide Next, Good, Due, AskedFor;
    assert i > 0;
    TraceGood(c, ss, es, i - 1);
    var s, e := ss[i - 1], es[i - 1];
    assert Moves(c, s, e, ss[i]);
    NextLogGrows(c, s, e);
    if n < |s.log| {
      k, m, idx := AnswerStems(c, ss, es, i - 1, n);
    } else {
      var call := ss[i].log[n];
      NewCall(c, s, e, n);
      if Waiting(s.requests, call.id) {
        var r :| 0 <= r < |s.requests| && s.requests[r].Some? && s.requests[r].value.id == call.id;
        k := WaitsForName(c, ss, es, i - 1, r);
        m, idx := i - 1, s.requests[r].value.idx;
        assert AnsweredWith(ss[i].log, |s.log|, call.id, call.answer);
        StepAnswers(c, s, e, r, call.answer);
        SlotFacts(c, s, r);
      } else {
        k, m, idx := i - 1, i - 1, 0;
        AtOnce(c, s, e, n);
      }
    }
  }

  /** A call is told at once only if there is no server. */
  lemma AtOnce(c: Config, s: State, e: Event, n: nat)
    requires Good(c, s) && Enabled(s, e) && |s.log| <= n < |Next(c, s, e).log| && e.Ask? && Next(c, s, e).log[n] == Call(s.accepted, NoAddress)
    ensures |s.servers| > 0 && !s.servers[0] && Next(c, s, e).accepted == s.accepted + 1
  {
    hide Next, Good, Enqueue, Fills;
    AskedOnly(c, s, e);
    NextGood(c, s, e);
    AskAnswers(c, s, e.name, e.addrType, e.newId);
    IsAsk(c, s, e);
    LoggedAccepted(c, Next(c, s, e), n);
  }

  lemma IsAsk(c: Config, s: State, e: Event)
    requires Good(c, s) && Enabled(s, e) && e.Ask?
    ensures |s.servers| > 0 && Next(c, s, e) == Enqueue(c, s, e.name, e.addrType, e.newId).0
  {
    hide Enqueue;
  }

  lemma LoggedAccepted(c: Config, s: State, n: nat)
    requires Good(c, s) && n < |s.log|
    ensures s.log[n].id < s.accepted
  {
  }

  // ---- the cache

  /** dns_lookup finds an address exactly if a cached entry has the name in the family asked for: the first one's. */
  lemma {:induction false} LookupIs(table: seq<Entry>, name: seq<Byte>, addrType: AddrType, i: nat)
    requires i <= |table|
    ensures var a := Lookup(table, name, addrType, i);
            && (a.None? ==> forall k {:trigger table[k]} :: i <= k < |table| ==> !Cached(table[k], name, addrType))
            && (a.Some? ==> exists k {:trigger table[k]} :: i <= k < |table| && Cached(table[k], name, addrType) && table[k].addr == a.value
                              && forall l {:trigger table[l]} :: i <= l < k ==> !Cached(table[l], name, addrType))
    decreases |table| - i
  {
    if i < |table| && !Cached(table[i], name, addrType) { LookupIs(table, name, addrType, i + 1); }
  }

  lemma {:induction false} TickDone(c: Config, s: State, n: nat, j: nat)
    requires Good(c, s) && n <= |s.table| && j < |s.table|
    ensures CheckUpTo(c, s, n).table[j].state.Done? ==> s.table[j].state.Done?
    decreases n
  {
    hide Good, CheckEntry;
    if n > 0 {
      TickDone(c, s, n - 1, j);
      var s1 := CheckUpTo(c, s, n - 1);
      CheckKeeps(c, s1, n - 1);
      CheckLocal(c, s1, n - 1, 0);
      if j == n - 1 && !s1.table[j].state.Done? { CheckNotDone(c, s1, j, 0); }
    }
  }

  /** The reply of this step is what entry j has cached. */
  ghost predicate CachedBy(s: State, e: Event, j: nat, entry: Entry) {
    && e.Packet? && Match(s.table, e.txid, 0) == Some(j) && j < |s.table| && entry.name == s.table[j].name
    && e.reply.Found? && e.reply.addr == entry.addr && e.reply.v6 == WantsV6(entry.addrType)
  }

  /** What is cached was cached before, or comes with the reply of this step. */
  lemma DoneStep(c: Config, s: State, e: Event, j: nat)
    requires Good(c, s) && Enabled(s, e) && j < |Next(c, s, e).table| && Next(c, s, e).table[j].state.Done?
    ensures |Next(c, s, e).table| == |s.table|
    ensures var d, d' := s.table[j], Next(c, s, e).table[j];
            (d.state.Done? && d'.name == d.name && d'.addr == d.addr && d'.addrType == d.addrType) || CachedBy(s, e, j, d')
  {
    hide Once, Receive, Enqueue;
    match e
    case Ask(name, addrType, newId) =>
      AskKeeps(c, s, name, addrType, newId);
      AskDone(c, s, name, addrType, newId, j);
    case Tick =>
      TickNames(c, s, |s.table|);
      TickDone(c, s, |s.table|, j);
    case Packet(txid, reply, newId) =>
      MatchIs(s.table, txid, 0);
      var m := Match(s.table, txid, 0);
      if m.Some? {
        ReceiveLocal(c, s, m.value, reply, newId);
        ReceiveNames(c, s, m.value, reply, newId);
      }
    case SetServer(k, on) =>
  }

  lemma AskDone(c: Config, s: State, name: seq<Byte>, addrType: AddrType, newId: nat, j: nat)
    requires Good(c, s) && (Fills(s, name, addrType) ==> Fresh(s.table, -1, newId)) && j < |s.table|
    ensures var s' := Enqueue(c, s, name, addrType, newId).0;
            |s'.table| == |s.table| && (s'.table[j].state.Done? ==> s'.table[j] == s.table[j])
  {
    hide Once, CheckEntry;
    if Fills(s, name, addrType) {
      var i, q := Victim(s.table, s.seqno).value, FirstFree(s.requests, 0).value;
      FillLocal(c, s, i, q, name, addrType, newId);
      CheckNotDone(c, Filled(s, i, q, name, addrType), i, newId);
    }
  }

  lemma {:induction false} CacheStems(c: Config, ss: seq<State>, es: seq<Event>, i: nat, j: nat) returns (m: nat)
    requires IsTrace(c, ss, es) && i <= |es| && j < |ss[i].table| && ss[i].table[j].state.Done?
    ensures m < i && CachedBy(ss[m], es[m], j, ss[i].table[j])
  {
    hide Next, Good;
    assert i > 0;
    TraceGood(c, ss, es, i - 1);
    assert Moves(c, ss[i - 1], es[i - 1], ss[i]);
    DoneStep(c, ss[i - 1], es[i - 1], j);
    if CachedBy(ss[i - 1], es[i - 1], j, ss[i].table[j]) {
      m := i - 1;
    } else {
      m := CacheStems(c, ss, es, i - 1, j);
    }
  }

  /** Over every run: an address found in the cache came in a reply to a query for this very name, in the family asked for. */
  lemma LookupStems(c: Config, ss: seq<State>, es: seq<Event>, i: nat, name: seq<Byte>, addrType: AddrType) returns (m: nat, j: nat)
    requires IsTrace(c, ss, es) && i <= |es| && Lookup(ss[i].table, name, addrType, 0).Some?
    ensures m < i && j < |ss[m].table| && SameName(name, ss[m].table[j].name)
    ensures es[m].Packet? && Match(ss[m].table, es[m].txid, 0) == Some(j)
    ensures es[m].reply.Found? && es[m].reply.addr == Lookup(ss[i].table, name, addrType, 0).value && es[m].reply.v6 == WantsV6(addrType)
  {
    LookupIs(ss[i].table, name, addrType, 0);
    var table := ss[i].table;
    j :| 0 <= j < |table| && Cached(table[j], name, addrType) && table[j].addr == Lookup(table, name, addrType, 0).value;
    m := CacheStems(c, ss, es, i, j);
  }
}
