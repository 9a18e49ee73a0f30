/** How long and whom the resolver asks: over every run, which questions have been sent for a query that is under way, and
    how much of its time is over. */
module DnsQueries {
  import opened Basics
  import opened DnsModel
  import opened DnsProofs
  import opened DnsRuns
  import opened DnsCache
  import opened DnsNames

  /** How often this question has been sent. */
  function Asked(s: State, q: Question): nat {
    multiset(s.sent)[q]
  }

  /** The questions sent between s and s' for query number n are d. */
  ghost predicate Sends(s: State, s': State, n: nat, d: seq<Question>) {
    forall x: Question {:trigger Asked(s', x)} :: x.number == n ==> Asked(s', x) == Asked(s, x) + multiset(d)[x]
  }

  /** How a query goes on: as it was, or the question d is sent to the same server again; to the next server, when the last
      one has been asked often enough or has failed; or, when there is nothing useful, for the other family from the first server on. */
  ghost predicate Goes(c: Config, e: Entry, e': Entry, d: seq<Question>, failed: bool, useless: bool) {
    && e.state.Asking? && e'.state.Asking? && e'.name == e.name && e'.number == e.number
    && if useless && e'.addrType != e.addrType then
         && Fallbacks(e.addrType) == 1 && Fallbacks(e'.addrType) == 0 && WantsV6(e'.addrType) != WantsV6(e.addrType)
         && e'.server == 0 && e'.retries == 0 && d == [QuestionOf(e')]
       else
         && e'.addrType == e.addrType && e'.txid == e.txid
         && if e'.server == e.server then
              (e'.retries == e.retries && d == []) || (e'.retries == e.retries + 1 && d == [QuestionOf(e')])
            else
              e'.server == e.server + 1 && e'.retries == 0 && d == [QuestionOf(e')] && (failed || e.retries + 1 == c.maxRetries)
  }

  // ---- one entry

  lemma FlushSends(s: State, i: nat)
    requires i < |s.table|
    ensures Flush(s, i).sent == s.sent && |Flush(s, i).table| == |s.table| && Flush(s, i).table[i].state.Unused?
  {
    CallKeepsTable(s, i, NoAddress, |s.requests|);
  }

  lemma SendSends(s: State, s1: State, i: nat)
    requires i < |s1.table| == |s.table| && s1.table[i].server < |s1.servers| && s1.sent == s.sent
    ensures var s' := Send(s1, i);
            && |s'.table| == |s.table|
            && (s'.table[i].state.Asking? ==> s'.table[i] == s1.table[i] && s'.sent == s.sent + [QuestionOf(s1.table[i])])
            && (!s'.table[i].state.Asking? && s1.table[i].state.Asking? ==> s'.sent == s.sent)
  {
    hide Flush;
    if !s1.servers[s1.table[i].server] { FlushSends(s1, i); }
  }

  lemma CheckGoes(c: Config, s: State, i: nat, txid: nat) returns (d: seq<Question>)
    requires Good(c, s) && i < |s.table| && s.table[i].state.Asking?
    ensures EntryOk(c, |s.servers|, s.queries, s.table[i])
    ensures var s' := CheckEntry(c, s, i, txid);
            && |s'.table| == |s.table| && s'.sent == s.sent + d
            && (forall k {:trigger d[k]} :: 0 <= k < |d| ==> d[k].number == s.table[i].number)
            && (s'.table[i].state.Asking? ==> Goes(c, s.table[i], s'.table[i], d, false, false))
  {
    hide Once, Flush, Send;
    var e, s' := s.table[i], CheckEntry(c, s, i, txid);
    assert EntryOk(c, |s.servers|, s.queries, e);
    d := [];
    if e.tmr - 1 != 0 {
    } else if e.retries + 1 != c.maxRetries {
      SendSends(s, Put(s, i, e.(tmr := e.retries + 1, retries := e.retries + 1)), i);
      if s'.table[i].state.Asking? { d := [QuestionOf(s'.table[i])]; }
    } else if Backup(s, e) {
      SendSends(s, Put(s, i, e.(server := e.server + 1, tmr := 1, retries := 0)), i);
      if s'.table[i].state.Asking? { d := [QuestionOf(s'.table[i])]; }
    } else {
      FlushSends(Put(s, i, e.(tmr := 0, retries := e.retries + 1)), i);
    }
  }

  lemma CheckSendsNothing(c: Config, s: State, i: nat)
    requires Good(c, s) && i < |s.table| && !s.table[i].state.Asking?
    ensures |s.servers| > 0
    ensures var s' := CheckEntry(c, s, i, 0); |s'.table| == |s.table| && s'.sent == s.sent && !s'.table[i].state.Asking?
  {
    assert EntryOk(c, |s.servers|, s.queries, s.table[i]);
  }

  lemma NewGoes(c: Config, s: State, i: nat, txid: nat)
    requires GoodExcept(c, s, i) && i < |s.table| && s.table[i].state.New?
    ensures var s' := CheckEntry(c, s, i, txid);
            && |s'.table| == |s.table|
            && (if s'.table[i].state.Asking? then s'.sent == s.sent + [QuestionOf(s'.table[i])] else s'.sent == s.sent)
  {
    hide Once, Flush, Send;
    SendSends(s, Put(s, i, s.table[i].(txid := txid, state := Asking, server := 0, tmr := 1, retries := 0)), i);
  }

  lemma ReceiveGoes(c: Config, s: State, i: nat, reply: Reply, txid: nat) returns (d: seq<Question>)
    requires Good(c, s) && i < |s.table| && s.table[i].state.Asking?
    ensures EntryOk(c, |s.servers|, s.queries, s.table[i])
    ensures var s' := Receive(c, s, i, reply, txid);
            && |s'.table| == |s.table| && s'.sent == s.sent + d
            && (forall k {:trigger d[k]} :: 0 <= k < |d| ==> d[k].number == s.table[i].number)
            && (s'.table[i].state.Asking? ==> Goes(c, s.table[i], s'.table[i], d, reply.Failure?, reply.NothingUseful?))
  {
    hide Once, Flush, CheckEntry, Resolve;
    var e, s' := s.table[i], Receive(c, s, i, reply, txid);
    assert EntryOk(c, |s.servers|, s.queries, e) && Alone(s.table, -1, i);
    d := [];
    match reply
    case Ignored =>
    case Found(ttl, addr, v6) => ResolveSends(c, s, i, ttl, addr, v6);
    case Failure =>
      if Backup(s, e) {
        PutAsking(c, s, i, e.(retries := c.maxRetries - 1, tmr := 1));
        d := CheckGoes(c, Put(s, i, e.(retries := c.maxRetries - 1, tmr := 1)), i, txid);
        MovesOn(c, s, i, txid);
      } else {
        FlushSends(s, i);
      }
    case NothingUseful =>
      if Restarts(e, reply) {
        var s1 := Put(s, i, e.(addrType := if e.addrType.V4V6? then V6 else V4, state := New));
        NewGoes(c, s1, i, txid);
        NewLocal(c, s1, i, txid);
        if s'.table[i].state.Asking? { d := [QuestionOf(s'.table[i])]; }
      } else {
        FlushSends(s, i);
      }
  }

  lemma ResolveSends(c: Config, s: State, i: nat, ttl: nat, addr: int, v6: bool)
    requires i < |s.table|
    ensures var s' := Resolve(c, s, i, ttl, addr, v6); s'.sent == s.sent && |s'.table| == |s.table| && !s'.table[i].state.Asking?
  {
    var t := Min(ttl, c.maxTtl);
    var s1 := Put(s, i, s.table[i].(state := Done, ttl := t, addr := addr, addrType := if v6 then V6 else V4, granted := t, aged := 0));
    CallKeepsTable(s1, i, Address(addr), |s1.requests|);
  }

  /** A failure goes on with the backup server. */
  lemma MovesOn(c: Config, s: State, i: nat, txid: nat)
    requires Good(c, s) && i < |s.table| && s.table[i].state.Asking? && Backup(s, s.table[i])
    ensures EntryOk(c, |s.servers|, s.queries, s.table[i])
    ensures var s' := CheckEntry(c, Put(s, i, s.table[i].(retries := c.maxRetries - 1, tmr := 1)), i, txid);
            |s'.table| == |s.table| && s'.table[i].state.Asking? && s'.table[i].server == s.table[i].server + 1
  {
    hide Once, Flush;
    assert EntryOk(c, |s.servers|, s.queries, s.table[i]);
  }

  // ---- one step

  /** Queries under way have numbers of their own. */
  ghost predicate Distinct(s: State) {
    forall j, k {:trigger s.table[j], s.table[k]} ::
      0 <= j < |s.table| && 0 <= k < |s.table| && j != k && s.table[j].state.Asking? && s.table[k].state.Asking? ==>
        s.table[j].number != s.table[k].number
  }

  /** Questions belong to queries that have been begun. */
  ghost predicate Numbered(s: State) {
    forall k {:trigger s.sent[k]} :: 0 <= k < |s.sent| ==> s.sent[k].number < s.queries
  }

  lemma SendsAll(s: State, s': State, n: nat, d: seq<Question>)
    requires s'.sent == s.sent + d
    ensures Sends(s, s', n, d)
  {
  }

  lemma SendsOther(s: State, s': State, n: nat, d: seq<Question>)
    requires s'.sent == s.sent + d && forall k {:trigger d[k]} :: 0 <= k < |d| ==> d[k].number != n
    ensures Sends(s, s', n, [])
  {
    forall x: Question {:trigger Asked(s', x)} | x.number == n ensures Asked(s', x) == Asked(s, x) {
      assert x !in d;
      assert multiset(d)[x] == 0;
    }
  }

  lemma SendsThen(s: State, s1: State, s': State, n: nat, d: seq<Question>, d': seq<Question>)
    requires Sends(s, s1, n, d) && Sends(s1, s', n, d')
    ensures Sends(s, s', n, d + d')
  {
    forall x: Question {:trigger Asked(s', x)} | x.number == n ensures Asked(s', x) == Asked(s, x) + multiset(d + d')[x] {
      assert Asked(s1, x) == Asked(s, x) + multiset(d)[x];
    }
  }

  lemma {:induction false} TickAsking(c: Config, s: State, n: nat, j: nat)
    requires Good(c, s) && n <= |s.table| && j < |s.table| && CheckUpTo(c, s, n).table[j].state.Asking?
    ensures s.table[j].state.Asking?
    decreases n
  {
    hide Good, CheckEntry;
    if n > 0 {
      var s1 := CheckUpTo(c, s, n - 1);
      CheckKeeps(c, s1, n - 1);
      CheckLocal(c, s1, n - 1, 0);
      if !s1.table[j].state.Asking? && j == n - 1 { CheckSendsNothing(c, s1, j); }
      TickAsking(c, s, n - 1, j);
    }
  }

  lemma TickDistinct(c: Config, s: State, n: nat)
    requires Good(c, s) && n <= |s.table| && Distinct(s)
    ensures Distinct(CheckUpTo(c, s, n))
  {
    hide Good, CheckUpTo;
    var s' := CheckUpTo(c, s, n);
    forall j, k {:trigger s'.table[j], s'.table[k]} |
      0 <= j < |s'.table| && 0 <= k < |s'.table| && j != k && s'.table[j].state.Asking? && s'.table[k].state.Asking?
      ensures s'.table[j].number != s'.table[k].number
    {
      TickAsking(c, s, n, j);
      TickAsking(c, s, n, k);
      UpToNumber(c, s, n, j);
      UpToNumber(c, s, n, k);
    }
  }

  /** One entry is checked; entry j is it, or another query, of which nothing is sent. */
  lemma CheckOther(c: Config, s: State, i: nat, j: nat)
    requires Good(c, s) && i < |s.table| && j < |s.table| && i != j && s.table[j].state.Asking? && Distinct(s)
    ensures EntryOk(c, |s.servers|, s.queries, s.table[i]) && |s.servers| > 0
    ensures Sends(s, CheckEntry(c, s, i, 0), s.table[j].number, [])
  {
    hide Good, CheckEntry;
    CheckKeeps(c, s, i);
    CheckLocal(c, s, i, 0);
    var s' := CheckEntry(c, s, i, 0);
    if s.table[i].state.Asking? {
      var d := CheckGoes(c, s, i, 0);
      SendsOther(s, s', s.table[j].number, d);
    } else {
      CheckSendsNothing(c, s, i);
      SendsOther(s, s', s.table[j].number, []);
    }
  }

  lemma {:induction false} TickGoes(c: Config, s: State, n: nat, j: nat) returns (d: seq<Question>)
    requires Good(c, s) && n <= |s.table| && j < |s.table| && Distinct(s) && CheckUpTo(c, s, n).table[j].state.Asking?
    ensures Sends(s, CheckUpTo(c, s, n), s.table[j].number, d)
    ensures if j < n then Goes(c, s.table[j], CheckUpTo(c, s, n).table[j], d, false, false) else d == []
    decreases n
  {
    hide Good, CheckEntry, Goes, Sends, Distinct;
    if n == 0 {
      d := [];
      SendsAll(s, s, s.table[j].number, []);
    } else {
      var s1, s' := CheckUpTo(c, s, n - 1), CheckUpTo(c, s, n);
      TickDistinct(c, s, n - 1);
      CheckKeeps(c, s1, n - 1);
      CheckLocal(c, s1, n - 1, 0);
      UpToNumber(c, s, n - 1, j);
      if j == n - 1 {
        TickRest(c, s, n - 1, j);
        TickAsking(c, s, n, j);
        var d0 := TickGoes(c, s, n - 1, j);
        d := CheckGoes(c, s1, j, 0);
        SendsAll(s1, s', s.table[j].number, d);
        SendsThen(s, s1, s', s.table[j].number, d0, d);
        assert d0 + d == d;
      } else {
        d := TickGoes(c, s, n - 1, j);
        CheckOther(c, s1, n - 1, j);
        SendsThen(s, s1, s', s.table[j].number, d, []);
        assert d + [] == d;
      }
    }
  }

  /** A query is begun: its question is sent to the first server. */
  ghost predicate Begins(s: State, s': State, e: Event, j: nat)
    requires j < |s'.table|
  {
    var q := s'.table[j];
    && e.Ask? && q.number == s.queries < s'.queries && q.name == e.name && q.addrType == e.addrType && q.server == 0 && q.retries == 0 && q.tmr == 1
    && Sends(s, s', q.number, [QuestionOf(q)])
  }

  lemma FillGoes(c: Config, s: State, i: nat, q: nat, name: seq<Byte>, addrType: AddrType, newId: nat)
    requires Good(c, s) && i < |s.table| && q < |s.requests| && s.requests[q].None? && !s.table[i].state.Asking? && Fresh(s.table, i, newId)
    ensures var s' := Fill(c, s, i, q, name, addrType, newId);
            && |s'.table| == |s.table| && s'.queries == s.queries + 1
            && (s'.table[i].state.Asking? ==>
                  && Begins(s, s', Ask(name, addrType, newId), i) && s'.sent == s.sent + [QuestionOf(s'.table[i])])
            && (!s'.table[i].state.Asking? ==> s'.sent == s.sent)
  {
    hide Once, CheckEntry, Sends;
    var s1 := Filled(s, i, q, name, addrType);
    FilledReady(c, s, i, q, name, addrType);
    NewLocal(c, s1, i, newId);
    NewGoes(c, s1, i, newId);
    CheckNumber(c, s1, i, newId);
    var s' := Fill(c, s, i, q, name, addrType, newId);
    if s'.table[i].state.Asking? { SendsAll(s, s', s.queries, [QuestionOf(s'.table[i])]); }
  }

  lemma AskGoes(c: Config, s: State, name: seq<Byte>, addrType: AddrType, newId: nat, j: nat)
    requires Good(c, s) && (Fills(s, name, addrType) ==> Fresh(s.table, -1, newId))
    requires var s' := Enqueue(c, s, name, addrType, newId).0; j < |s'.table| && s'.table[j].state.Asking?
    ensures var s' := Enqueue(c, s, name, addrType, newId).0;
            && |s'.table| == |s.table|
            && ((s.table[j].state.Asking? && s'.table[j] == s.table[j] && Sends(s, s', s.table[j].number, []))
                || Begins(s, s', Ask(name, addrType, newId), j))
  {
    hide Once, Fill, Sends;
    var s' := Enqueue(c, s, name, addrType, newId).0;
    AskKeeps(c, s, name, addrType, newId);
    if Fills(s, name, addrType) {
      var i, q := Victim(s.table, s.seqno).value, FirstFree(s.requests, 0).value;
      FillGoes(c, s, i, q, name, addrType, newId);
      FillLocal(c, s, i, q, name, addrType, newId);
      if j != i {
        assert EntryOk(c, |s.servers|, s.queries, s.table[j]);
        SendsOther(s, s', s.table[j].number, s'.sent[|s.sent|..]);
      }
    } else {
      SendsAll(s, s', s'.table[j].number, []);
    }
  }

  /** The reply of this step belongs to query j and says so. */
  predicate Fails(s: State, e: Event, j: nat) {
    e.Packet? && e.reply.Failure? && Match(s.table, e.txid, 0) == Some(j)
  }

  predicate Disappoints(s: State, e: Event, j: nat) {
    e.Packet? && e.reply.NothingUseful? && Match(s.table, e.txid, 0) == Some(j)
  }

  lemma PacketGoes(c: Config, s: State, e: Event, j: nat) returns (d: seq<Question>)
    requires Good(c, s) && Enabled(s, e) && e.Packet? && Distinct(s) && j < |Next(c, s, e).table| && Next(c, s, e).table[j].state.Asking?
    ensures |Next(c, s, e).table| == |s.table|
    ensures Goes(c, s.table[j], Next(c, s, e).table[j], d, Fails(s, e, j), Disappoints(s, e, j)) && Sends(s, Next(c, s, e), s.table[j].number, d)
  {
    hide Once, Receive, Sends;
    var s' := Next(c, s, e);
    MatchIs(s.table, e.txid, 0);
    var m := Match(s.table, e.txid, 0);
    d := [];
    if m.Some? {
      ReceiveLocal(c, s, m.value, e.reply, e.newId);
      var d1 := ReceiveGoes(c, s, m.value, e.reply, e.newId);
      if j == m.value {
        d := d1;
        SendsAll(s, s', s.table[j].number, d);
      } else {
        SendsOther(s, s', s.table[j].number, d1);
      }
    } else {
      SendsAll(s, s', s.table[j].number, []);
    }
  }

  /** In every step a query that is under way afterwards goes on, or is begun. */
  lemma QueryStep(c: Config, s: State, e: Event, j: nat) returns (d: seq<Question>)
    requires Good(c, s) && Enabled(s, e) && Distinct(s) && j < |Next(c, s, e).table| && Next(c, s, e).table[j].state.Asking?
    ensures |Next(c, s, e).table| == |s.table|
    ensures var s' := Next(c, s, e);
            || (Goes(c, s.table[j], s'.table[j], d, Fails(s, e, j), Disappoints(s, e, j)) && Sends(s, s', s.table[j].number, d))
            || Begins(s, s', e, j)
  {
    hide Good, Sends, Enqueue, Arrive;
    var s' := Next(c, s, e);
    d := [];
    match e
    case Ask(name, addrType, newId) =>
      AskKeeps(c, s, name, addrType, newId);
      AskGoes(c, s, name, addrType, newId, j);
    case Tick => d := TickGoes(c, s, |s.table|, j);
    case Packet(txid, reply, newId) => d := PacketGoes(c, s, e, j);
    case SetServer(k, on) => SendsAll(s, s', s.table[j].number, []);
  }

  // ---- numbers

  lemma BeginsOne(c: Config, s: State, e: Event, j: nat, k: nat)
    requires Good(c, s) && Enabled(s, e) && j < |Next(c, s, e).table| && k < |Next(c, s, e).table|
    requires Begins(s, Next(c, s, e), e, j) && Begins(s, Next(c, s, e), e, k)
    requires Next(c, s, e).table[j].state.Asking? && Next(c, s, e).table[k].state.Asking?
    ensures j == k
  {
    hide Once, Fill, Sends;
    AskKeeps(c, s, e.name, e.addrType, e.newId);
    if Fills(s, e.name, e.addrType) {
      var i, q := Victim(s.table, s.seqno).value, FirstFree(s.requests, 0).value;
      FillLocal(c, s, i, q, e.name, e.addrType, e.newId);
      assert forall m {:trigger s.table[m]} :: 0 <= m < |s.table| && s.table[m].state.Asking? ==> s.table[m].number < s.queries;
    }
  }

  lemma NumberBound(c: Config, s: State, j: nat)
    requires Good(c, s) && j < |s.table| && s.table[j].state.Asking?
    ensures s.table[j].number < s.queries && EntryOk(c, |s.servers|, s.queries, s.table[j])
  {
  }

  lemma NextDistinct(c: Config, s: State, e: Event)
    requires Good(c, s) && Enabled(s, e) && Distinct(s)
    ensures Distinct(Next(c, s, e))
  {
    hide Good, Next, Sends, Fails, Disappoints;
    var s' := Next(c, s, e);
    forall j, k {:trigger s'.table[j], s'.table[k]} |
      0 <= j < |s'.table| && 0 <= k < |s'.table| && j != k && s'.table[j].state.Asking? && s'.table[k].state.Asking?
      ensures s'.table[j].number != s'.table[k].number
    {
      var d := QueryStep(c, s, e, j);
      var d' := QueryStep(c, s, e, k);
      if s.table[j].state.Asking? { NumberBound(c, s, j); }
      if s.table[k].state.Asking? { NumberBound(c, s, k); }
      if Begins(s, s', e, j) && Begins(s, s', e, k) { BeginsOne(c, s, e, j, k); }
    }
  }

  lemma {:induction false} TickNumbered(c: Config, s: State, n: nat)
    requires Good(c, s) && n <= |s.table| && Numbered(s)
    ensures Numbered(CheckUpTo(c, s, n)) && CheckUpTo(c, s, n).queries == s.queries
    decreases n
  {
    hide Good, CheckEntry, Goes;
    if n > 0 {
      TickNumbered(c, s, n - 1);
      var s1 := CheckUpTo(c, s, n - 1);
      CheckKeeps(c, s1, n - 1);
      CheckNumber(c, s1, n - 1, 0);
      if s1.table[n - 1].state.Asking? {
        var d := CheckGoes(c, s1, n - 1, 0);
        NumberBound(c, s1, n - 1);
      } else {
        CheckSendsNothing(c, s1, n - 1);
      }
    }
  }

  lemma NextNumbered(c: Config, s: State, e: Event)
    requires Good(c, s) && Enabled(s, e) && Numbered(s)
    ensures Numbered(Next(c, s, e))
  {
    hide Once, Fill, Receive, Goes, Sends;
    match e
    case Ask(name, addrType, newId) =>
      if Fills(s, name, addrType) {
        FillGoes(c, s, Victim(s.table, s.seqno).value, FirstFree(s.requests, 0).value, name, addrType, newId);
      }
    case Tick => TickNumbered(c, s, |s.table|);
    case Packet(txid, reply, newId) =>
      MatchIs(s.table, txid, 0);
      var m := Match(s.table, txid, 0);
      if m.Some? {
        ReceiveNumber(c, s, m.value, reply, newId);
        var d := ReceiveGoes(c, s, m.value, reply, newId);
      }
    case SetServer(k, on) =>
  }

  lemma {:induction false} TraceNumbers(c: Config, ss: seq<State>, es: seq<Event>, i: nat)
    requires IsTrace(c, ss, es) && i <= |es|
    ensures Good(c, ss[i]) && Distinct(ss[i]) && Numbered(ss[i])
  {
    hide Next, Good, Distinct, Numbered;
    TraceGood(c, ss, es, i);
    if i > 0 {
      TraceNumbers(c, ss, es, i - 1);
      assert Moves(c, ss[i - 1], es[i - 1], ss[i]);
      NextDistinct(c, ss[i - 1], es[i - 1]);
      NextNumbered(c, ss[i - 1], es[i - 1]);
    } else {
      StartNumbers(c, ss[0]);
    }
  }

  lemma StartNumbers(c: Config, s: State)
    requires Start(c, s)
    ensures Distinct(s) && Numbered(s)
  {
  }

  lemma NotAsked(s: State, x: Question)
    requires Numbered(s) && x.number >= s.queries
    ensures Asked(s, x) == 0
  {
    assert x !in s.sent;
  }

  // ---- every run

  /** The question of a query, put to server k. */
  function At(e: Entry, k: nat): Question {
    QuestionOf(e).(server := k)
  }

  /** Server k has reported a failure to this query. */
  ghost predicate FailedBefore(ss: seq<State>, es: seq<Event>, i: nat, j: nat, e: Entry, k: nat)
    requires i <= |es| < |ss|
  {
    exists m {:trigger es[m]} :: 0 <= m < i && Fails(ss[m], es[m], j) && j < |ss[m].table|
                                 && At(ss[m].table[j], ss[m].table[j].server) == At(e, k)
  }

  /** What has been sent for the query in entry j: its question retries + 1 times to its server; before that, in turn, to every
      server up to there DNS_MAX_RETRIES times unless that one reported a failure; to no other server; and nothing else, except
      for the family that was tried first. */
  ghost predicate AskedRight(c: Config, ss: seq<State>, es: seq<Event>, i: nat, j: nat)
    requires i <= |es| < |ss| && j < |ss[i].table|
  {
    var s, e := ss[i], ss[i].table[j];
    && (forall k: nat {:trigger At(e, k)} ::
          var n := Asked(s, At(e, k));
          if k < e.server then 1 <= n <= c.maxRetries && (n == c.maxRetries || FailedBefore(ss, es, i, j, e, k))
          else n == if k == e.server then e.retries + 1 else 0)
    && (forall x: Question {:trigger Asked(s, x)} :: x.number == e.number && Asked(s, x) > 0 ==>
          if x.v6 == WantsV6(e.addrType) then x == At(e, x.server) else Fallbacks(e.addrType) == 0)
  }

  lemma BegunRight(c: Config, ss: seq<State>, es: seq<Event>, i: nat, j: nat)
    requires 0 < i <= |es| < |ss| && j < |ss[i].table| && Numbered(ss[i - 1]) && Begins(ss[i - 1], ss[i], es[i - 1], j)
    ensures AskedRight(c, ss, es, i, j)
  {
    var s, s', e := ss[i - 1], ss[i], ss[i].table[j];
    forall x: Question {:trigger Asked(s', x)} | x.number == e.number ensures Asked(s', x) == if x == At(e, 0) then 1 else 0 {
      NotAsked(s, x);
    }
  }

  lemma FailedStays(ss: seq<State>, es: seq<Event>, i: nat, j: nat, e: Entry, e': Entry, k: nat)
    requires 0 < i <= |es| < |ss| && FailedBefore(ss, es, i - 1, j, e, k) && At(e', k) == At(e, k)
    ensures FailedBefore(ss, es, i, j, e', k)
  {
  }

  lemma GoesRight(c: Config, ss: seq<State>, es: seq<Event>, i: nat, j: nat, d: seq<Question>)
    requires 0 < i <= |es| < |ss| && j < |ss[i - 1].table| == |ss[i].table| && AskedRight(c, ss, es, i - 1, j)
    requires Goes(c, ss[i - 1].table[j], ss[i].table[j], d, Fails(ss[i - 1], es[i - 1], j), Disappoints(ss[i - 1], es[i - 1], j))
    requires Sends(ss[i - 1], ss[i], ss[i].table[j].number, d) && ss[i - 1].table[j].retries < c.maxRetries
    ensures AskedRight(c, ss, es, i, j)
  {
    var s, s', e, e' := ss[i - 1], ss[i], ss[i - 1].table[j], ss[i].table[j];
    forall x: Question {:trigger Asked(s', x)} | x.number == e.number && Asked(s', x) > 0
      ensures if x.v6 == WantsV6(e'.addrType) then x == At(e', x.server) else Fallbacks(e'.addrType) == 0
    {
      assert Asked(s', x) == Asked(s, x) + multiset(d)[x];
    }
    forall k: nat {:trigger At(e', k)}
      ensures var n := Asked(s', At(e', k));
              if k < e'.server then 1 <= n <= c.maxRetries && (n == c.maxRetries || FailedBefore(ss, es, i, j, e', k))
              else n == if k == e'.server then e'.retries + 1 else 0
    {
      assert Asked(s', At(e', k)) == Asked(s, At(e', k)) + multiset(d)[At(e', k)];
      if e'.addrType == e.addrType {
        assert At(e', k) == At(e, k);
        if FailedBefore(ss, es, i - 1, j, e, k) { FailedStays(ss, es, i, j, e, e', k); }
      } else {
        assert Asked(s, At(e', k)) == 0;
      }
    }
  }

  /** Over every run: the questions sent for a query that is under way are as they should be. */
  lemma {:induction false} QueryAsks(c: Config, ss: seq<State>, es: seq<Event>, i: nat, j: nat)
    requires IsTrace(c, ss, es) && i <= |es| && j < |ss[i].table| && ss[i].table[j].state.Asking?
    ensures AskedRight(c, ss, es, i, j)
  {
    hide Next, Good, Distinct, Numbered, Sends, AskedRight, Fails, Disappoints;
    assert i > 0;
    TraceNumbers(c, ss, es, i - 1);
    var s, e := ss[i - 1], es[i - 1];
    assert Moves(c, s, e, ss[i]);
    var d := QueryStep(c, s, e, j);
    if Begins(s, ss[i], e, j) {
      BegunRight(c, ss, es, i, j);
    } else {
      NumberBound(c, s, j);
      QueryAsks(c, ss, es, i - 1, j);
      GoesRight(c, ss, es, i, j, d);
    }
  }

  // ---- replies that do not help

  /** After a failure reported by its server a query goes on with the backup server. */
  lemma FailureGoesOn(c: Config, s: State, e: Event, j: nat)
    requires Good(c, s) && Enabled(s, e) && Fails(s, e, j) && j < |s.table| && Further(s.servers, s.table[j].server)
    ensures var q, s' := s.table[j], Next(c, s, e);
            && |s'.table| == |s.table| && s'.sent == s.sent + [At(q, q.server + 1)] && s'.log == s.log && s'.requests == s.requests
            && s'.table == s.table[j := q.(server := q.server + 1, retries := 0, tmr := 1)]
  {
    hide Once, Flush;
    MatchIs(s.table, e.txid, 0);
    FurtherIs(s, s.table[j]);
    assert EntryOk(c, |s.servers|, s.queries, s.table[j]);
  }

  /** After a reply without a useful address a query for either family goes on with the other one, from the first server on. */
  lemma NothingGoesOn(c: Config, s: State, e: Event, j: nat)
    requires Good(c, s) && Enabled(s, e) && Disappoints(s, e, j) && j < |s.table| && Fallbacks(s.table[j].addrType) == 1
    ensures |s.servers| > 0
    ensures var q, s' := s.table[j], Next(c, s, e);
            s.servers[0] ==>
              && |s'.table| == |s.table| && s'.log == s.log && s'.requests == s.requests
              && s'.table[j].state.Asking? && s'.table[j].name == q.name && s'.table[j].server == 0 && s'.table[j].retries == 0 && s'.table[j].tmr == 1
              && s'.sent == s.sent + [Question(q.number, e.newId, 0, q.name, !WantsV6(q.addrType))]
              && s'.table[j].addrType == (if WantsV6(q.addrType) then V4 else V6)
  {
    hide Once, Flush;
    MatchIs(s.table, e.txid, 0);
    assert EntryOk(c, |s.servers|, s.queries, s.table[j]);
  }

  // ---- time

  lemma CheckTimes(c: Config, s: State, i: nat)
    requires Good(c, s) && i < |s.table| && s.table[i].state.Asking?
    ensures EntryOk(c, |s.servers|, s.queries, s.table[i]) && Timed(c, |s.servers|, s.table[i])
    ensures var s' := CheckEntry(c, s, i, 0);
            && |s'.table| == |s.table|
            && (s'.table[i].state.Asking? ==>
                  Timed(c, |s.servers|, s'.table[i]) && Left(c, |s.servers|, s'.table[i]) + 1 == Left(c, |s.servers|, s.table[i]))
  {
    hide Once, Flush, Send;
    var e := s.table[i];
    assert EntryOk(c, |s.servers|, s.queries, e);
    if e.tmr - 1 != 0 {
    } else if e.retries + 1 != c.maxRetries {
      SendSends(s, Put(s, i, e.(tmr := e.retries + 1, retries := e.retries + 1)), i);
    } else if Backup(s, e) {
      SendSends(s, Put(s, i, e.(server := e.server + 1, tmr := 1, retries := 0)), i);
    } else {
      FlushSends(Put(s, i, e.(tmr := 0, retries := e.retries + 1)), i);
    }
  }

  lemma {:induction false} TickTimes(c: Config, s: State, n: nat, j: nat)
    requires Good(c, s) && n <= |s.table| && j < |s.table| && CheckUpTo(c, s, n).table[j].state.Asking?
    ensures Timed(c, |s.servers|, s.table[j]) && Timed(c, |s.servers|, CheckUpTo(c, s, n).table[j])
    ensures Left(c, |s.servers|, CheckUpTo(c, s, n).table[j]) + (if j < n then 1 else 0) == Left(c, |s.servers|, s.table[j])
    decreases n
  {
    hide Good, CheckEntry, Left;
    TickAsking(c, s, n, j);
    NumberBound(c, s, j);
    if n > 0 {
      var s1 := CheckUpTo(c, s, n - 1);
      CheckKeeps(c, s1, n - 1);
      CheckLocal(c, s1, n - 1, 0);
      if j == n - 1 {
        TickRest(c, s, n - 1, j);
        CheckTimes(c, s1, j);
      } else {
        TickTimes(c, s, n - 1, j);
      }
    }
  }

  /** Without a reply a query under way loses exactly the ticks. */
  lemma StepTimes(c: Config, s: State, e: Event, j: nat)
    requires Good(c, s) && Enabled(s, e) && !e.Packet? && j < |s.table| && s.table[j].state.Asking?
    ensures var s' := Next(c, s, e);
            && |s'.table| == |s.table| && |s'.servers| == |s.servers| && Timed(c, |s.servers|, s.table[j])
            && (s'.table[j].state.Asking? ==>
                  Timed(c, |s.servers|, s'.table[j]) && Left(c, |s.servers|, s'.table[j]) + TicksOf(e) == Left(c, |s.servers|, s.table[j]))
  {
    hide Good, Enqueue, Left;
    NumberBound(c, s, j);
    match e
    case Ask(name, addrType, newId) => AskKeeps(c, s, name, addrType, newId);
    case Tick => if CheckUpTo(c, s, |s.table|).table[j].state.Asking? { TickTimes(c, s, |s.table|, j); }
    case SetServer(k, on) =>
  }

  /** Query number n is under way in entry j. */
  predicate UnderWay(s: State, j: nat, n: nat) {
    j < |s.table| && s.table[j].state.Asking? && s.table[j].number == n
  }

  lemma {:induction false} QueriesGrow(c: Config, ss: seq<State>, es: seq<Event>, i: nat, k: nat)
    requires IsTrace(c, ss, es) && i <= k <= |es| && |ss[i].table| > 0
    ensures ss[i].queries <= ss[k].queries && |ss[k].table| == |ss[i].table|
    decreases k
  {
    hide Next, Good;
    if i < k {
      QueriesGrow(c, ss, es, i, k - 1);
      TraceGood(c, ss, es, k - 1);
      assert Moves(c, ss[k - 1], es[k - 1], ss[k]);
      NumbersGrow(c, ss[k - 1], es[k - 1], 0);
    }
  }

  /** A query under way was so in the step before, unless it has been begun since. */
  lemma WasUnderWay(c: Config, ss: seq<State>, es: seq<Event>, i: nat, k: nat, j: nat, n: nat)
    requires IsTrace(c, ss, es) && i < k <= |es| && UnderWay(ss[i], j, n) && UnderWay(ss[k], j, n)
    ensures UnderWay(ss[k - 1], j, n)
  {
    hide Next, Good, Distinct, Numbered, Sends, Fails, Disappoints;
    TraceNumbers(c, ss, es, i);
    TraceNumbers(c, ss, es, k - 1);
    QueriesGrow(c, ss, es, i, k - 1);
    NumberBound(c, ss[i], j);
    assert Moves(c, ss[k - 1], es[k - 1], ss[k]);
    var d := QueryStep(c, ss[k - 1], es[k - 1], j);
  }

  /** Over every run: while no reply comes, a query under way uses up its time tick by tick: server after server, and with one
      tick more between two questions each time. */
  lemma {:induction false} TimeRuns(c: Config, ss: seq<State>, es: seq<Event>, i: nat, k: nat, j: nat, n: nat)
    requires IsTrace(c, ss, es) && i <= k <= |es| && Silent(es, i, k) && UnderWay(ss[i], j, n) && UnderWay(ss[k], j, n)
    ensures |ss[k].servers| == |ss[i].servers| && Timed(c, |ss[i].servers|, ss[i].table[j]) && Timed(c, |ss[i].servers|, ss[k].table[j])
    ensures Left(c, |ss[i].servers|, ss[k].table[j]) + Ticks(es, i, k) == Left(c, |ss[i].servers|, ss[i].table[j])
    decreases k
  {
    hide Next, Good, Left;
    TraceGood(c, ss, es, i);
    NumberBound(c, ss[i], j);
    if i < k {
      WasUnderWay(c, ss, es, i, k, j, n);
      TimeRuns(c, ss, es, i, k - 1, j, n);
      TraceGood(c, ss, es, k - 1);
      assert Moves(c, ss[k - 1], es[k - 1], ss[k]);
      StepTimes(c, ss[k - 1], es[k - 1], j);
    }
  }

  /** When a query is given up for want of a reply, every server from the first one on has been asked DNS_MAX_RETRIES times, or
      has reported a failure, and there is no further one. */
  ghost predicate Exhausted(c: Config, ss: seq<State>, es: seq<Event>, m: nat, j: nat)
    requires m <= |es| < |ss| && j < |ss[m].table|
  {
    var s, e := ss[m], ss[m].table[j];
    && !Further(s.servers, e.server)
    && forall k: nat {:trigger At(e, k)} :: k <= e.server ==> Asked(s, At(e, k)) == c.maxRetries || FailedBefore(ss, es, m, j, e, k)
  }

  /** Over every run: a call told by a tick that there is no address asked for a name whose query was exhausted, or the server
      to ask has been taken away. */
  lemma GivenUpAfter(c: Config, ss: seq<State>, es: seq<Event>, i: nat, n: nat) returns (k: nat, m: nat, idx: nat)
    requires IsTrace(c, ss, es) && i <= |es| && n < |ss[i].log| && ss[i].log[n].answer.NoAddress?
    ensures k <= m < i && MadeIn(ss, es, k, ss[i].log[n].id)
    ensures es[m].Tick? ==> idx < |ss[m].table| && AskedFor(es[k], ss[m].table[idx]) && ss[m].table[idx].server < |ss[m].servers|
    ensures es[m].Tick? && ss[m].servers[ss[m].table[idx].server] ==> Exhausted(c, ss, es, m, idx)
  {
    hide Next, Good, AskedFor, Match;
    k, m, idx := AnswerStems(c, ss, es, i, n);
    if Told(c, ss, es, k, m, idx, ss[i].log[n]) && es[m].Tick? {
      var e := ss[m].table[idx];
      QueryAsks(c, ss, es, m, idx);
      forall k: nat {:trigger At(e, k)} | k <= e.server ensures ss[m].servers[e.server] ==> Asked(ss[m], At(e, k)) == c.maxRetries || FailedBefore(ss, es, m, idx, e, k) {
      }
    }
  }

  // ---- one query for a name

  lemma {:induction false} DuplicateIs(table: seq<Entry>, name: seq<Byte>, addrType: AddrType, i: nat)
    requires i <= |table|
    ensures FirstDuplicate(table, name, addrType, i).None? <==> forall k {:trigger table[k]} :: i <= k < |table| ==> !Duplicate(table[k], name, addrType)
    decreases |table| - i
  {
    if i < |table| && !Duplicate(table[i], name, addrType) { DuplicateIs(table, name, addrType, i + 1); }
  }

  /** The name is being asked for already. */
  ghost predicate AskedAlready(s: State, name: seq<Byte>, addrType: AddrType) {
    exists k {:trigger s.table[k]} :: 0 <= k < |s.table| && s.table[k].state.Asking? && SameName(name, s.table[k].name) && s.table[k].addrType == addrType
  }

  ghost predicate FreeSlot(s: State) {
    exists r {:trigger s.requests[r]} :: 0 <= r < |s.requests| && s.requests[r].None?
  }

  /** A call is accepted exactly if there is a slot for it, and its name is being asked for or an entry can be had; and only a
      name that is not being asked for begins a query. */
  lemma AcceptedIff(c: Config, s: State, name: seq<Byte>, addrType: AddrType, newId: nat)
    requires Good(c, s) && (Fills(s, name, addrType) ==> Fresh(s.table, -1, newId))
    ensures |s.servers| > 0
    ensures var (s', ok) := Enqueue(c, s, name, addrType, newId);
            && (ok <==> FreeSlot(s) && (AskedAlready(s, name, addrType) || Victim(s.table, s.seqno).Some?))
            && s'.accepted == s.accepted + (if ok then 1 else 0)
            && s'.queries == s.queries + (if ok && !AskedAlready(s, name, addrType) then 1 else 0)
            && (AskedAlready(s, name, addrType) ==> s'.table == s.table && s'.sent == s.sent && s'.log == s.log)
            && (!ok ==> s' == s)
  {
    hide Good, Fill, SameName, FirstDuplicate, FirstFree, Victim;
    ServersSet(c, s);
    DuplicateIs(s.table, name, addrType, 0);
    AlreadyIs(s, name, addrType);
    var slot := FirstFree(s.requests, 0);
    if slot.Some? { assert s.requests[slot.value].None?; }
    if Fills(s, name, addrType) {
      NotPending(s);
      FillCounts(c, s, Victim(s.table, s.seqno).value, slot.value, name, addrType, newId);
    }
  }

  lemma AlreadyIs(s: State, name: seq<Byte>, addrType: AddrType)
    ensures AskedAlready(s, name, addrType) <==> !(forall k {:trigger s.table[k]} :: 0 <= k < |s.table| ==> !Duplicate(s.table[k], name, addrType))
  {
  }

  lemma FillCounts(c: Config, s: State, i: nat, q: nat, name: seq<Byte>, addrType: AddrType, newId: nat)
    requires Good(c, s) && i < |s.table| && q < |s.requests| && s.requests[q].None? && !s.table[i].state.Asking? && Fresh(s.table, i, newId)
    ensures var s' := Fill(c, s, i, q, name, addrType, newId); s'.accepted == s.accepted + 1 && s'.queries == s.queries + 1
  {
    hide Good, Fill, Sends;
    FillName(c, s, i, q, name, addrType, newId, q);
    FillGoes(c, s, i, q, name, addrType, newId);
  }

  /** No two queries under way for either family have the same name and begin with the same one. */
  ghost predicate Single(s: State) {
    forall j, k {:trigger s.table[j], s.table[k]} :: 0 <= j < |s.table| && 0 <= k < |s.table| && j != k ==> !Rivals(s.table[j], s.table[k])
  }

  predicate Rivals(a: Entry, b: Entry) {
    a.state.Asking? && b.state.Asking? && SameName(a.name, b.name) && a.addrType == b.addrType && Fallbacks(a.addrType) == 1
  }

  lemma RivalsTurn(a: Entry, b: Entry)
    ensures Rivals(a, b) <==> Rivals(b, a)
  {
  }

  lemma SingleStep(c: Config, s: State, e: Event, j: nat, k: nat)
    requires Good(c, s) && Enabled(s, e) && Distinct(s) && Single(s) && j != k
    requires j < |Next(c, s, e).table| && k < |Next(c, s, e).table|
    ensures !Rivals(Next(c, s, e).table[j], Next(c, s, e).table[k])
  {
    hide Good, Next, Sends, Fails, Disappoints, SameName;
    var s' := Next(c, s, e);
    if s'.table[j].state.Asking? && s'.table[k].state.Asking? {
      var d := QueryStep(c, s, e, j);
      var d' := QueryStep(c, s, e, k);
      RivalsTurn(s'.table[j], s'.table[k]);
      if Begins(s, s', e, j) {
        if Begins(s, s', e, k) { BeginsOne(c, s, e, j, k); }
        BeginsAlone(c, s, e, j, k);
      } else if Begins(s, s', e, k) {
        BeginsAlone(c, s, e, k, j);
      } else {
        assert !Rivals(s.table[j], s.table[k]);
      }
    }
  }

  /** A query begins only if no other one under way has the same name and kind. */
  lemma BeginsAlone(c: Config, s: State, e: Event, j: nat, k: nat)
    requires Good(c, s) && Enabled(s, e) && j < |Next(c, s, e).table| == |s.table| && Begins(s, Next(c, s, e), e, j)
    requires k < |s.table| && s.table[k].state.Asking? && j != k
    ensures !Rivals(Next(c, s, e).table[j], Next(c, s, e).table[k])
  {
    hide Good, Sends, SameName, Enqueue;
    AskKeeps(c, s, e.name, e.addrType, e.newId);
    AcceptedIff(c, s, e.name, e.addrType, e.newId);
  }

  /** Over every run: a name that is asked for with both families, in the same order, has one query at a time. (A query that
      has turned to its second family may meet one that asks for that family alone.) */
  lemma {:induction false} TraceSingle(c: Config, ss: seq<State>, es: seq<Event>, i: nat)
    requires IsTrace(c, ss, es) && i <= |es|
    ensures Single(ss[i])
  {
    hide Next, Good, Distinct, Numbered, Rivals;
    if i > 0 {
      TraceSingle(c, ss, es, i - 1);
      TraceNumbers(c, ss, es, i - 1);
      assert Moves(c, ss[i - 1], es[i - 1], ss[i]);
      forall j, k {:trigger ss[i].table[j], ss[i].table[k]} | 0 <= j < |ss[i].table| && 0 <= k < |ss[i].table| && j != k
        ensures !Rivals(ss[i].table[j], ss[i].table[k])
      {
        SingleStep(c, ss[i - 1], es[i - 1], j, k);
      }
    } else {
      NoneRivals(c, ss[0]);
    }
  }

  lemma NoneRivals(c: Config, s: State)
    requires Start(c, s)
    ensures Single(s)
  {
  }
}
