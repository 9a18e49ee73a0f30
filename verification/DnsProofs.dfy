/** What every step of the resolver keeps, and what follows for every run. */
module DnsProofs {
  import opened Basics
  import opened DnsModel

  // ---- calls are answered exactly once

  ghost predicate Logged(log: seq<Call>, id: nat) {
    exists k :: 0 <= k < |log| && log[k].id == id
  }

  ghost predicate Waiting(requests: seq<Option<Request>>, id: nat) {
    exists r :: 0 <= r < |requests| && requests[r].Some? && requests[r].value.id == id
  }

  /** Every call accepted is either waiting in one slot or has been answered once. */
  ghost predicate Once(requests: seq<Option<Request>>, log: seq<Call>, accepted: nat) {
    && (forall r {:trigger requests[r]} :: 0 <= r < |requests| && requests[r].Some? ==>
          requests[r].value.id < accepted && !Logged(log, requests[r].value.id))
    && (forall r, q {:trigger requests[r], requests[q]} :: 0 <= r < q < |requests| && requests[r].Some? && requests[q].Some? ==>
          requests[r].value.id != requests[q].value.id)
    && (forall k {:trigger log[k]} :: 0 <= k < |log| ==> log[k].id < accepted)
    && (forall k, m {:trigger log[k], log[m]} :: 0 <= k < m < |log| ==> log[k].id != log[m].id)
    && (forall id: nat {:trigger Waiting(requests, id)} {:trigger Logged(log, id)} :: id < accepted ==> Logged(log, id) || Waiting(requests, id))
  }

  /** One callback is called and its slot cleared. */
  lemma CallOne(requests: seq<Option<Request>>, log: seq<Call>, accepted: nat, r: nat, a: Answer)
    requires Once(requests, log, accepted) && r < |requests| && requests[r].Some?
    ensures Once(requests[r := None], log + [Call(requests[r].value.id, a)], accepted)
  {
    var id := requests[r].value.id;
    var requests', log' := requests[r := None], log + [Call(id, a)];
    assert log'[|log|].id == id;
    forall k | 0 <= k < |log| ensures log'[k].id != id {
      assert !Logged(log, id);
    }
    forall q {:trigger requests'[q]} | 0 <= q < |requests'| && requests'[q].Some?
      ensures requests'[q].value.id < accepted && !Logged(log', requests'[q].value.id)
    {
      assert requests[q].value.id != id;
    }
    forall x: nat {:trigger Waiting(requests', x)} {:trigger Logged(log', x)} | x < accepted
      ensures Logged(log', x) || Waiting(requests', x)
    {
      if x != id {
        if Logged(log, x) {
          var k :| 0 <= k < |log| && log[k].id == x;
          assert log'[k].id == x;
        } else {
          assert Waiting(requests, x);
          var q :| 0 <= q < |requests| && requests[q].Some? && requests[q].value.id == x;
          assert requests'[q] == requests[q];
        }
      }
    }
  }

  /** A new call takes a free slot. */
  lemma AcceptOne(requests: seq<Option<Request>>, log: seq<Call>, accepted: nat, r: nat, idx: nat)
    requires Once(requests, log, accepted) && r < |requests| && requests[r].None?
    ensures Once(requests[r := Some(Request(accepted, idx))], log, accepted + 1)
  {
    var requests' := requests[r := Some(Request(accepted, idx))];
    forall x: nat {:trigger Waiting(requests', x)} {:trigger Logged(log, x)} | x < accepted + 1
      ensures Logged(log, x) || Waiting(requests', x)
    {
      if x == accepted {
        assert requests'[r].value.id == x;
      } else if !Logged(log, x) {
        assert Waiting(requests, x);
        var q :| 0 <= q < |requests| && requests[q].Some? && requests[q].value.id == x;
        assert requests'[q] == requests[q];
      }
    }
  }

  /** Exactly the slots that wait for idx are cleared, and each of their calls is answered. */
  lemma {:induction false} CallUpToIs(s: State, idx: nat, a: Answer, n: nat)
    requires n <= |s.requests| && Once(s.requests, s.log, s.accepted)
    ensures var s' := CallUpTo(s, idx, a, n);
            && Once(s'.requests, s'.log, s.accepted) && s.log <= s'.log
            && (forall r {:trigger s'.requests[r]} :: 0 <= r < |s.requests| ==>
                  s'.requests[r] == if r < n && WaitsFor(s.requests[r], idx) then None else s.requests[r])
            && (forall k {:trigger s'.log[k]} :: |s.log| <= k < |s'.log| ==> s'.log[k].answer == a)
    decreases n
  {
    hide Once;
    if n > 0 {
      CallUpToIs(s, idx, a, n - 1);
      var s1 := CallUpTo(s, idx, a, n - 1);
      if WaitsFor(s1.requests[n - 1], idx) {
        CallOne(s1.requests, s1.log, s.accepted, n - 1, a);
      }
    }
  }

  // ---- the table

  /** The timer of a pending entry runs 1, 1, 2, 3, ... ticks; a cached answer is within its time to live. */
  predicate EntryOk(c: Config, servers: nat, queries: nat, e: Entry) {
    && !e.state.New?
    && (e.state.Asking? ==> 1 <= e.tmr && e.tmr <= (if e.retries == 0 then 1 else e.retries) && e.retries < c.maxRetries && e.server < servers)
    && (e.state.Done? ==> 1 <= e.ttl && e.ttl + e.aged == e.granted <= c.maxTtl)
    && (!e.state.Unused? ==> e.number < queries && e.seqno == e.number % 256)
  }

  /** No pending entry but i has this transaction id. */
  ghost predicate Fresh(table: seq<Entry>, i: int, txid: nat) {
    forall j {:trigger table[j]} :: 0 <= j < |table| && j != i && table[j].state.Asking? ==> table[j].txid != txid
  }

  /** Everything is in order, except that entry i may be in any state (-1: no exception). */
  ghost predicate GoodExcept(c: Config, s: State, i: int) {
    && c.maxRetries > 0 && |s.servers| > 0 && s.seqno == s.queries % 256
    && (forall j {:trigger s.table[j]} :: 0 <= j < |s.table| && j != i ==> EntryOk(c, |s.servers|, s.queries, s.table[j]))
    && (forall j {:trigger s.table[j]} :: 0 <= j < |s.table| && j != i && s.table[j].state.Asking? ==> Alone(s.table, i, j))
    && (forall r {:trigger s.requests[r]} :: 0 <= r < |s.requests| && s.requests[r].Some? ==>
          s.requests[r].value.idx < |s.table| && (s.requests[r].value.idx == i || s.table[s.requests[r].value.idx].state.Asking?))
    && Once(s.requests, s.log, s.accepted)
  }

  /** Pending entry j shares its transaction id with no other one (i does not count). */
  ghost predicate Alone(table: seq<Entry>, i: int, j: int)
    requires 0 <= j < |table|
  {
    forall k {:trigger table[k]} :: 0 <= k < |table| && k != i && k != j && table[k].state.Asking? ==> table[k].txid != table[j].txid
  }

  ghost predicate Good(c: Config, s: State) {
    GoodExcept(c, s, -1)
  }

  /** Entry i becomes pending. */
  lemma PutAsking(c: Config, s: State, i: nat, e: Entry)
    requires GoodExcept(c, s, i) && i < |s.table| && e.state.Asking? && EntryOk(c, |s.servers|, s.queries, e) && Fresh(s.table, i, e.txid)
    ensures Good(c, Put(s, i, e))
  {
  }

  /** Whoever waits for entry i has been called, and i is e from now on. */
  lemma CalledGood(c: Config, s: State, i: nat, a: Answer, e: Entry)
    requires GoodExcept(c, s, i) && i < |s.table| && !e.state.Asking? && EntryOk(c, |s.servers|, s.queries, e)
    ensures |CallFound(s, i, a).table| == |s.table| && Good(c, Put(CallFound(s, i, a), i, e))
  {
    hide Once;
    CallKeepsTable(s, i, a, |s.requests|);
    CallUpToIs(s, i, a, |s.requests|);
  }

  lemma FlushGood(c: Config, s: State, i: nat)
    requires GoodExcept(c, s, i) && i < |s.table|
    ensures Good(c, Flush(s, i))
  {
    hide Once, GoodExcept, CallFound;
    CallKeepsTable(s, i, NoAddress, |s.requests|);
    CalledGood(c, s, i, NoAddress, s.table[i].(state := Unused));
    assert CallFound(s, i, NoAddress).table == s.table by { CallFoundTable(s, i, NoAddress); }
  }

  lemma CallFoundTable(s: State, i: nat, a: Answer)
    ensures CallFound(s, i, a).table == s.table
  {
    CallKeepsTable(s, i, a, |s.requests|);
  }

  lemma ResolveGood(c: Config, s: State, i: nat, ttl: nat, addr: int, v6: bool)
    requires Good(c, s) && i < |s.table| && s.table[i].state.Asking?
    ensures Good(c, Resolve(c, s, i, ttl, addr, v6))
  {
    hide Once, CallFound, Alone;
    var t := Min(ttl, c.maxTtl);
    var e := s.table[i].(state := Done, ttl := t, addr := addr, addrType := if v6 then V6 else V4, granted := t, aged := 0);
    var s1 := Put(s, i, e);
    assert EntryOk(c, |s.servers|, s.queries, s.table[i]);
    assert GoodExcept(c, s1, i) by { PutReady(c, s, i, e); }
    hide GoodExcept;
    CallFoundTable(s1, i, Address(addr));
    var e' := if t == 0 then e.(state := Unused) else e;
    CalledGood(c, s1, i, Address(addr), e');
    assert Resolve(c, s, i, ttl, addr, v6) == Put(CallFound(s1, i, Address(addr)), i, e');
  }

  /** Entry i may be changed freely for a moment. */
  lemma PutReady(c: Config, s: State, i: nat, e: Entry)
    requires Good(c, s) && i < |s.table|
    ensures GoodExcept(c, Put(s, i, e), i)
  {
    hide Once, EntryOk;
  }

  lemma SendGood(c: Config, s: State, i: nat)
    requires Good(c, s) && i < |s.table| && s.table[i].server < |s.servers|
    ensures Good(c, Send(s, i))
  {
    hide Flush, Once, EntryOk;
    if !s.servers[s.table[i].server] { FlushGood(c, s, i); }
  }

  /** A step of pending entry i. */
  lemma AskingGood(c: Config, s: State, i: nat, txid: nat)
    requires Good(c, s) && i < |s.table| && s.table[i].state.Asking?
    ensures EntryOk(c, |s.servers|, s.queries, s.table[i]) && Good(c, CheckEntry(c, s, i, txid))
  {
    hide Once, Flush, Send;
    var e := s.table[i];
    assert EntryOk(c, |s.servers|, s.queries, e) && Alone(s.table, -1, i);
    if e.tmr - 1 != 0 {
      PutAsking(c, s, i, e.(tmr := e.tmr - 1));
    } else if e.retries + 1 != c.maxRetries {
      PutAsking(c, s, i, e.(tmr := e.retries + 1, retries := e.retries + 1));
      SendGood(c, Put(s, i, e.(tmr := e.retries + 1, retries := e.retries + 1)), i);
    } else if Backup(s, e) {
      PutAsking(c, s, i, e.(server := e.server + 1, tmr := 1, retries := 0));
      SendGood(c, Put(s, i, e.(server := e.server + 1, tmr := 1, retries := 0)), i);
    } else {
      FlushGood(c, Put(s, i, e.(tmr := 0, retries := e.retries + 1)), i);
    }
  }

  /** Entry i has just been filled: its query is started. */
  lemma NewGood(c: Config, s: State, i: nat, txid: nat)
    requires GoodExcept(c, s, i) && i < |s.table| && s.table[i].state.New? && Fresh(s.table, i, txid)
    requires s.table[i].number < s.queries && s.table[i].seqno == s.table[i].number % 256
    ensures Good(c, CheckEntry(c, s, i, txid))
  {
    hide Once, Flush, Send;
    var e := s.table[i].(txid := txid, state := Asking, server := 0, tmr := 1, retries := 0);
    PutAsking(c, s, i, e);
    SendGood(c, Put(s, i, e), i);
  }

  lemma CheckEntryGood(c: Config, s: State, i: nat, txid: nat)
    requires Good(c, s) && i < |s.table|
    ensures EntryOk(c, |s.servers|, s.queries, s.table[i]) && Good(c, CheckEntry(c, s, i, txid))
  {
    hide Once, Flush, Send;
    assert EntryOk(c, |s.servers|, s.queries, s.table[i]);
    if s.table[i].state.Asking? {
      AskingGood(c, s, i, txid);
    } else {
      var s' := CheckEntry(c, s, i, txid);
      assert EntryOk(c, |s.servers|, s.queries, s'.table[i]) && !s'.table[i].state.Asking?;
      forall j {:trigger s'.table[j]} | 0 <= j < |s'.table| && s'.table[j].state.Asking? ensures Alone(s'.table, -1, j) {
        assert s.table[j].state.Asking? && Alone(s.table, -1, j);
      }
    }
  }

  lemma ReceiveGood(c: Config, s: State, i: nat, reply: Reply, txid: nat)
    requires Good(c, s) && i < |s.table| && s.table[i].state.Asking? && (Restarts(s.table[i], reply) ==> Fresh(s.table, i, txid))
    ensures EntryOk(c, |s.servers|, s.queries, s.table[i]) && Good(c, Receive(c, s, i, reply, txid))
  {
    hide Once, Flush, Send, Resolve, CheckEntry;
    var e := s.table[i];
    assert EntryOk(c, |s.servers|, s.queries, e) && Alone(s.table, -1, i);
    match reply
    case Ignored =>
    case Found(ttl, addr, v6) => ResolveGood(c, s, i, ttl, addr, v6);
    case Failure =>
      if Backup(s, e) {
        var e' := e.(retries := c.maxRetries - 1, tmr := 1);
        PutAsking(c, s, i, e');
        AskingGood(c, Put(s, i, e'), i, txid);
      } else {
        FlushGood(c, s, i);
      }
    case NothingUseful =>
      if e.addrType.V4V6? {
        NewGood(c, Put(s, i, e.(addrType := V6, state := New)), i, txid);
      } else if e.addrType.V6V4? {
        NewGood(c, Put(s, i, e.(addrType := V4, state := New)), i, txid);
      } else {
        FlushGood(c, s, i);
      }
  }

  lemma FilledReady(c: Config, s: State, i: nat, r: nat, name: seq<Byte>, addrType: AddrType)
    requires Good(c, s) && i < |s.table| && r < |s.requests| && s.requests[r].None?
    ensures GoodExcept(c, Filled(s, i, r, name, addrType), i)
  {
    hide Once;
    AcceptOne(s.requests, s.log, s.accepted, r, i);
    var s1 := Filled(s, i, r, name, addrType);
    forall j {:trigger s1.table[j]} | 0 <= j < |s1.table| && j != i
      ensures EntryOk(c, |s1.servers|, s1.queries, s1.table[j]) && (s1.table[j].state.Asking? ==> Alone(s1.table, i, j))
    {
      assert EntryOk(c, |s.servers|, s.queries, s.table[j]);
      assert s.table[j].state.Asking? ==> Alone(s.table, -1, j);
    }
  }

  lemma FillGood(c: Config, s: State, i: nat, r: nat, name: seq<Byte>, addrType: AddrType, txid: nat)
    requires Good(c, s) && i < |s.table| && r < |s.requests| && s.requests[r].None? && Fresh(s.table, i, txid)
    ensures Good(c, Fill(c, s, i, r, name, addrType, txid))
  {
    hide Once, CheckEntry;
    FilledReady(c, s, i, r, name, addrType);
    NewGood(c, Filled(s, i, r, name, addrType), i, txid);
  }

  lemma EnqueueGood(c: Config, s: State, name: seq<Byte>, addrType: AddrType, txid: nat)
    requires Good(c, s) && (Fills(s, name, addrType) ==> Fresh(s.table, -1, txid))
    ensures Good(c, Enqueue(c, s, name, addrType, txid).0)
  {
    hide Once, Fill, SameName;
    var dup, slot := FirstDuplicate(s.table, name, addrType, 0), FirstFree(s.requests, 0);
    if dup.Some? && slot.Some? {
      AcceptOne(s.requests, s.log, s.accepted, slot.value, dup.value);
    } else {
      var v := Victim(s.table, s.seqno);
      if v.Some? && slot.Some? {
        FillGood(c, s, v.value, slot.value, name, addrType, txid);
      }
    }
  }
}
