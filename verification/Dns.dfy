/** dns.c at work: the tables in place, each operation proved to do what DnsModel says. */
module Dns {
  import opened Basics
  import opened DnsModel
  import opened DnsProofs
  import opened DnsRuns
  import opened DnsCache
  import opened DnsNames
  import opened DnsCodec
  import opened DnsReply

  /** c | 0x20 */
  function SetCaseBit(c: Byte): Byte {
    if c / 32 % 2 == 0 then c + 32 else c
  }

  /** lwip_strnicmp on strings a and b with a zero byte behind, shorter than len: whether it returns 0. */
  method StrNICmp(a: seq<Byte>, b: seq<Byte>, len: nat) returns (same: bool)
    requires 0 !in a && 0 !in b && |a| < len && |b| < len
    ensures same <==> SameName(a, b)
  {
    var i: nat, c1: Byte := 0, 1;
    while i != len && c1 != 0
      invariant c1 != 0 ==> i <= |a| && i <= |b|
      invariant c1 != 0 ==> forall k :: 0 <= k < i ==> Lower(a[k]) == Lower(b[k])
      invariant c1 == 0 ==> SameName(a, b)
      decreases len - i
    {
      c1 := if i < |a| then a[i] else 0;
      var c2: Byte := if i < |b| then b[i] else 0;
      if c1 != c2 {
        var upc := SetCaseBit(c1);
        if 'a' as int <= upc <= 'z' as int {
          if upc != SetCaseBit(c2) {
            return false;
          }
        } else {
          return false;
        }
      }
      i := i + 1;
    }
    same := true;
  }

  /** What the arrival of a packet means to the tables. */
  ghost function Arrival(s: State, p: seq<Byte>, from: nat -> bool, behind: nat -> Byte, newId: nat): Event
    requires |p| >= HEADER + QUERY
  {
    var id := Get16(p, 0);
    var m := Match(s.table, id, 0);
    MatchIs(s.table, id, 0);
    DnsRuns.Packet(id, if m.None? then Ignored else Understood(p, s.table[m.value], behind, from(s.table[m.value].server)), newId)
  }

  /** From the bytes to the callbacks: a reply from the server asked that repeats the question resolves the entry
      with the first address in it, and is a failure, or nothing useful, if it says so. */
  lemma LookupAnswered(c: Config, s: State, i: nat, from: nat -> bool, behind: nat -> Byte, flags1: Byte, flags2: Byte,
                       counts: seq<Byte>, question: seq<Byte>, rs: seq<Record>, post: seq<Byte>, newId: nat)
    requires Good(c, s) && i < |s.table| && s.table[i].state.Asking? && s.table[i].txid < 0x10000 && from(s.table[i].server)
    requires flags1 >= 0x80 && |counts| == 4 && |rs| < 0x10000 && AllOk(rs)
    requires |question| <= 255 && SameName(question, s.table[i].name) && Proper(Labels(question))
    requires IsPbuf(ReplyTo(s.table[i], flags1, flags2, counts, question, rs, post))
    requires flags2 % 16 == 0 && Restarts(s.table[i], First(rs, WantsV6(s.table[i].addrType))) ==> Fresh(s.table, i, newId)
    ensures var p := ReplyTo(s.table[i], flags1, flags2, counts, question, rs, post);
            && |p| >= HEADER + QUERY && EntryOk(c, |s.servers|, s.queries, s.table[i]) && Enabled(s, Arrival(s, p, from, behind, newId))
            && Next(c, s, Arrival(s, p, from, behind, newId)) ==
                 Receive(c, s, i, if flags2 % 16 != 0 then Failure else First(rs, WantsV6(s.table[i].addrType)), newId)
  {
    var e := s.table[i];
    ReplyUnderstood(e, behind, e.txid, flags1, flags2, counts, question, rs, post);
    var p := ReplyTo(e, flags1, flags2, counts, question, rs, post);
    hide Understood, ReplyTo, Receive, First, Get16;
    assert EntryOk(c, |s.servers|, s.queries, e);
    MatchIs(s.table, e.txid, 0);
    var m := Match(s.table, e.txid, 0);
    assert Matches(s.table[i], e.txid) && m.Some?;
    OneMatch(c, s, e.txid, m.value, i);
  }

  ghost function ReplyTo(e: Entry, flags1: Byte, flags2: Byte, counts: seq<Byte>, question: seq<Byte>, rs: seq<Record>, post: seq<Byte>): seq<Byte>
    requires e.txid < 0x10000 && |counts| == 4 && |question| <= 255 && |rs| < 0x10000 && AllOk(rs)
  {
    DnsReply.Packet(Header(e.txid, flags1, flags2, |rs|, counts), question, TypeOf(WantsV6(e.addrType)), rs, post)
  }

  /** A datagram: its bytes, whether it comes from server k, and the memory behind the name of the entry it is compared with. */
  datatype Datagram = Datagram(bytes: seq<Byte>, from: nat -> bool, behind: nat -> Byte)

  /** What the packets of a run say is what dns_recv reads in their bytes. */
  ghost predicate Read(ss: seq<State>, es: seq<Event>, ds: seq<Datagram>)
    requires |es| < |ss|
  {
    && |ds| == |es|
    && forall m {:trigger es[m]} :: 0 <= m < |es| && es[m].Packet? ==> ReadIn(ss[m], es[m], ds[m])
  }

  ghost predicate ReadIn(s: State, e: Event, d: Datagram) {
    e.Packet? && |d.bytes| >= HEADER + QUERY && e == Arrival(s, d.bytes, d.from, d.behind, e.newId)
  }

  /** Behind the name of a record stand type A or AAAA, class IN, a time to live, the length 4 or 16, and the address. */
  predicate Shows(p: seq<Byte>, o: nat, v6: bool, reply: Reply) {
    var n := if v6 then 16 else 4;
    && o + 10 + n <= |p| && Get16(p, o) == (if v6 then 28 else 1) && Get16(p, o + 2) == 1 && Get16(p, o + 8) == n
    && reply == Found(Get32(p, o + 4), Number(p[o + 10..o + 10 + n]), v6)
  }

  /** The datagram answers this entry: it comes from the server asked, with the transaction id, and repeats the question, as
      labels that stand in the text of the name and with the family asked for; the address stands in a record behind that. */
  ghost predicate Replies(d: Datagram, e: Entry, ls: seq<seq<Byte>>, o: nat, reply: Reply) {
    && ls != [] && (forall i :: 0 <= i < |ls| ==> |ls[i]| < 192) && TextMatches(Text(e.name, d.behind), 0, ls)
    && var q := HEADER + |Enc(ls)| + 1;
    && d.from(e.server) && |d.bytes| >= q + QUERY && Get16(d.bytes, 0) == e.txid && d.bytes[2] >= 0x80 && d.bytes[3] % 16 == 0
    && d.bytes[HEADER..q] == Enc(ls) + [0] && Get16(d.bytes, q) == (if WantsV6(e.addrType) then 28 else 1) && Get16(d.bytes, q + 2) == 1
    && o >= q + QUERY && Shows(d.bytes, o, WantsV6(e.addrType), reply)
  }

  /** From the bytes to the callbacks, over every run: an address is passed only to a call whose name was asked for, and it
      stands in a datagram from the server that was asked, in reply to that very question. */
  lemma AddressRead(c: Config, ss: seq<State>, es: seq<Event>, ds: seq<Datagram>, i: nat, n: nat)
    returns (k: nat, m: nat, idx: nat, ls: seq<seq<Byte>>, o: nat)
    requires IsTrace(c, ss, es) && Read(ss, es, ds) && i <= |es| && n < |ss[i].log| && ss[i].log[n].answer.Address?
    ensures k < m < i && MadeIn(ss, es, k, ss[i].log[n].id)
    ensures es[m].Packet? && es[m].reply.Found? && es[m].reply.addr == ss[i].log[n].answer.addr
    ensures idx < |ss[m].table| && AskedFor(es[k], ss[m].table[idx]) && Replies(ds[m], ss[m].table[idx], ls, o, es[m].reply)
  {
    hide AskedFor, Moves, Understood, TextMatches, Enc, Get16, Get32, Number;
    k, m, idx := AnswerStems(c, ss, es, i, n);
    assert ReadIn(ss[m], es[m], ds[m]);
    var d, e := ds[m], ss[m].table[idx];
    MatchIs(ss[m].table, Get16(d.bytes, 0), 0);
    var k1: nat;
    ls, k1, o := FoundMeans(d.bytes, e, d.behind, d.from(e.server));
  }

  class Resolver {
    const cfg: Config
    const table: array<Entry>
    const requests: array<Option<Request>>
    const servers: array<bool>
    /** dns_seqno and dns_txid */
    var seqno: nat
    var txid: nat
    /** Which call gets which number, the callbacks made, and the questions sent. */
    var accepted: nat
    var log: seq<Call>
    var sent: seq<Question>
    var queries: nat

    ghost function Now(): State
      reads this, table, requests, servers
    {
      State(table[..], requests[..], servers[..], seqno, queries, accepted, log, sent)
    }

    ghost predicate Ready(i: nat)
      reads this, table, requests, servers
    {
      && i < table.Length && servers.Length > 0
      && (table[i].state.Asking? ==> table[i].server < servers.Length && table[i].tmr > 0)
    }

    constructor (c: Config, tableSize: nat, maxRequests: nat, maxServers: nat)
      ensures cfg == c && fresh(table) && fresh(requests) && fresh(servers)
      ensures table.Length == tableSize && requests.Length == maxRequests && servers.Length == maxServers
      ensures seqno == queries == accepted == 0 && log == [] && sent == []
      ensures forall i :: 0 <= i < tableSize ==> table[i].state.Unused?
      ensures forall r :: 0 <= r < maxRequests ==> requests[r].None?
    {
      cfg := c;
      table := new Entry[tableSize](_ => Entry(Unused, [], V4, 0, 0, 0, 0, 0, 0, 0, 0, 0, 0));
      requests := new Option<Request>[maxRequests](_ => None);
      servers := new bool[maxServers](_ => false);
      seqno, txid, accepted, log, sent, queries := 0, 0, 0, [], [], 0;
    }

    /** dns_call_found */
    method CallFound(idx: nat, a: Answer)
      modifies this`log, requests
      ensures Now() == DnsModel.CallFound(old(Now()), idx, a)
    {
      ghost var was := Now();
      for i := 0 to requests.Length
        invariant Now() == CallUpTo(was, idx, a, i)
      {
        ghost var s1 := Now();
        if requests[i].Some? && requests[i].value.idx == idx {
          log := log + [Call(requests[i].value.id, a)];
          requests[i] := None;
        }
        assert requests[..] == if WaitsFor(s1.requests[i], idx) then s1.requests[i := None] else s1.requests;
      }
    }

    method FlushEntry(i: nat)
      requires i < table.Length
      modifies this`log, table, requests
      ensures Now() == Flush(old(Now()), i)
    {
      ghost var was := Now();
      CallKeepsTable(was, i, NoAddress, |was.requests|);
      CallFound(i, NoAddress);
      table[i] := table[i].(state := Unused);
      assert table[..] == was.table[i := was.table[i].(state := Unused)];
    }

    /** dns_send */
    method SendQuery(i: nat)
      requires i < table.Length && table[i].server < servers.Length
      modifies this`log, this`sent, table, requests
      ensures Now() == Send(old(Now()), i)
    {
      if !servers[table[i].server] {
        FlushEntry(i);
      } else {
        sent := sent + [QuestionOf(table[i])];
      }
    }

    /** dns_create_txid with the counter dns_txid: it finds an id no pending query uses. */
    method CreateTxid() returns (id: nat)
      requires table.Length < 0x10000
      modifies this`txid
      ensures Fresh(table[..], -1, id) && id < 0x10000
    {
      hide Searched, Fresh;
      ghost var tried: set<nat> := {};
      ghost var used := UsedIds(table[..]);
      UsedIdsFew(table[..]);
      txid := (txid + 1) % 0x10000;
      ghost var first := txid;
      SearchedStart(first, used);
      var found := Taken(txid);
      while found
        invariant found == !Fresh(table[..], -1, txid) && txid < 0x10000 && Searched(first, tried, used, txid)
        decreases |used - tried|
      {
        UsedIdsHas(table[..], txid);
        SearchedStep(first, tried, used, txid);
        tried := tried + {txid};
        txid := (txid + 1) % 0x10000;
        found := Taken(txid);
      }
      id := txid;
    }

    method Taken(x: nat) returns (r: bool)
      ensures r == !Fresh(table[..], -1, x)
    {
      for j := 0 to table.Length
        invariant forall k :: 0 <= k < j ==> !(table[k].state.Asking? && table[k].txid == x)
      {
        if table[j].state.Asking? && table[j].txid == x {
          assert table[..][j].txid == x;
          return true;
        }
      }
      r := false;
    }

    /** dns_check_entry; id is the transaction id a new query gets. */
    method CheckEntry(i: nat) returns (id: nat)
      requires Ready(i) && table.Length < 0x10000
      modifies this`log, this`sent, this`txid, table, requests
      ensures Now() == DnsModel.CheckEntry(cfg, old(Now()), i, id)
      ensures old(table[i].state.New?) ==> Fresh(old(table[..]), -1, id)
    {
      id := 0;
      match table[i].state {
        case New => id := StartQuery(i);
        case Asking => TickQuery(i);
        case Done =>
          ghost var was := Now();
          table[i] := if table[i].ttl <= 1 then table[i].(ttl := 0, state := Unused) else table[i].(ttl := table[i].ttl - 1, aged := table[i].aged + 1);
          assert Now() == Put(was, i, Aged(was.table[i]));
        case Unused =>
      }
    }

    method StartQuery(i: nat) returns (id: nat)
      requires Ready(i) && table.Length < 0x10000 && table[i].state.New?
      modifies this`log, this`sent, this`txid, table, requests
      ensures Now() == DnsModel.CheckEntry(cfg, old(Now()), i, id) && Fresh(old(table[..]), -1, id)
    {
      hide Send;
      ghost var was := Now();
      id := CreateTxid();
      table[i] := table[i].(txid := id, state := Asking, server := 0, tmr := 1, retries := 0);
      assert Now() == Put(was, i, table[i]);
      SendQuery(i);
    }

    method TickQuery(i: nat)
      requires Ready(i) && table[i].state.Asking?
      modifies this`log, this`sent, table, requests
      ensures Now() == DnsModel.CheckEntry(cfg, old(Now()), i, 0)
    {
      hide Send, Flush;
      ghost var was := Now();
      var e := table[i];
      table[i] := e.(tmr := e.tmr - 1);
      if table[i].tmr == 0 {
        table[i] := table[i].(retries := e.retries + 1);
        if table[i].retries == cfg.maxRetries {
          if e.server + 1 < servers.Length && servers[e.server + 1] {
            table[i] := table[i].(server := e.server + 1, tmr := 1, retries := 0);
          } else {
            assert Now() == Put(was, i, e.(tmr := 0, retries := e.retries + 1));
            FlushEntry(i);
            return;
          }
        } else {
          table[i] := table[i].(tmr := table[i].retries);
        }
        assert Now() == Put(was, i, table[i]);
        SendQuery(i);
      } else {
        assert Now() == Put(was, i, e.(tmr := e.tmr - 1));
      }
    }

    /** dns_check_entries */
    method CheckEntries()
      requires Good(cfg, Now()) && table.Length < 0x10000
      modifies this`log, this`sent, this`txid, table, requests
      ensures Now() == Next(cfg, old(Now()), Tick)
    {
      hide Good, DnsModel.CheckEntry;
      ghost var was := Now();
      for i := 0 to table.Length
        invariant Now() == CheckUpTo(cfg, was, i)
      {
        ghost var s1 := Now();
        CheckEntryGood(cfg, s1, i, 0);
        assert servers.Length > 0 by { ServersSet(cfg, s1); }
        var id := CheckEntry(i);
        CheckAnyId(cfg, s1, i, id);
      }
    }

    /** dns_recv. from: whether the packet comes from server k; behind: the memory behind the name of the entry. */
    method Recv(p: seq<Byte>, from: nat -> bool, behind: nat -> Byte) returns (newId: nat)
      requires Good(cfg, Now()) && table.Length < 0x10000 && IsPbuf(p)
      modifies this`log, this`sent, this`txid, table, requests
      ensures |p| < HEADER + QUERY ==> Now() == old(Now())
      ensures |p| >= HEADER + QUERY ==>
                var e := Arrival(old(Now()), p, from, behind, newId);
                Enabled(old(Now()), e) && Now() == Next(cfg, old(Now()), e)
    {
      newId := 0;
      if |p| < HEADER + QUERY {
        return;
      }
      hide Understood, Get16;
      var id := Get16(p, 0);
      MatchIs(table[..], id, 0);
      for i := 0 to table.Length
        invariant Match(table[..], id, 0) == Match(table[..], id, i)
        invariant Now() == old(Now())
      {
        if table[i].state.Asking? && table[i].txid == id {
          assert EntryOk(cfg, servers.Length, queries, Now().table[i]);
          var reply := ReadReply(p, table[i], behind, from(table[i].server));
          newId := Handle(i, reply);
          return;
        }
      }
    }

    /** dns_recv once the entry is known. */
    method Handle(i: nat, reply: Reply) returns (newId: nat)
      requires i < table.Length < 0x10000 && table[i].state.Asking? && table[i].server < servers.Length && cfg.maxRetries > 0
      modifies this`log, this`sent, this`txid, table, requests
      ensures Now() == Receive(cfg, old(Now()), i, reply, newId)
      ensures Restarts(old(table[i]), reply) ==> Fresh(old(table[..]), i, newId)
    {
      hide Flush, DnsModel.CheckEntry, Resolve;
      ghost var was := Now();
      var e := table[i];
      newId := 0;
      match reply {
        case Ignored =>
        case Found(ttl, addr, v6) => CorrectResponse(i, ttl, addr, v6);
        case Failure =>
          if e.server + 1 < servers.Length && servers[e.server + 1] {
            table[i] := e.(retries := cfg.maxRetries - 1, tmr := 1);
            assert Now() == Put(was, i, table[i]);
            newId := CheckEntry(i);
          } else {
            FlushEntry(i);
          }
        case NothingUseful =>
          if e.addrType.V4V6? || e.addrType.V6V4? {
            table[i] := e.(addrType := if e.addrType.V4V6? then V6 else V4, state := New);
            assert Now() == Put(was, i, table[i]);
            ghost var mid := table[..];
            newId := CheckEntry(i);
            assert forall j {:trigger was.table[j]} :: 0 <= j < |was.table| && j != i ==> mid[j] == was.table[j];
          } else {
            FlushEntry(i);
          }
      }
    }

    /** dns_enqueue */
    method Enqueue(name: seq<Byte>, addrType: AddrType) returns (ok: bool, newId: nat)
      requires Good(cfg, Now()) && table.Length < 0x10000
      modifies this, table, requests
      ensures Enabled(old(Now()), Ask(name, addrType, newId))
      ensures (Now(), ok) == DnsModel.Enqueue(cfg, old(Now()), name, addrType, newId)
    {
      hide Fill, SameName;
      newId := 0;
      var dup := FindDuplicate(name, addrType);
      var slot := FindFree();
      if dup.Some? && slot.Some? {
        ghost var was := Now();
        requests[slot.value] := Some(Request(accepted, dup.value));
        accepted := accepted + 1;
        assert requests[..] == was.requests[slot.value := Some(Request(was.accepted, dup.value))];
        return true, 0;
      }
      var v := FindVictim();
      if v.None? || slot.None? {
        return false, 0;
      }
      newId := FillEntry(v.value, slot.value, name, addrType);
      ok := true;
    }

    method FindDuplicate(name: seq<Byte>, addrType: AddrType) returns (r: Option<nat>)
      ensures r == FirstDuplicate(table[..], name, addrType, 0)
    {
      for i := 0 to table.Length
        invariant FirstDuplicate(table[..], name, addrType, 0) == FirstDuplicate(table[..], name, addrType, i)
      {
        if Duplicate(table[i], name, addrType) {
          return Some(i);
        }
      }
      r := None;
    }

    /** dns_lookup */
    method LookupName(name: seq<Byte>, addrType: AddrType) returns (r: Option<int>)
      ensures r == Lookup(table[..], name, addrType, 0)
    {
      for i := 0 to table.Length
        invariant Lookup(table[..], name, addrType, 0) == Lookup(table[..], name, addrType, i)
      {
        if table[i].state.Done? && SameName(name, table[i].name) && WantsV6(addrType) == WantsV6(table[i].addrType) {
          return Some(table[i].addr);
        }
      }
      r := None;
    }

    method FindFree() returns (o: Option<nat>)
      ensures o == FirstFree(requests[..], 0)
    {
      for r := 0 to requests.Length
        invariant FirstFree(requests[..], 0) == FirstFree(requests[..], r)
      {
        if requests[r].None? {
          return Some(r);
        }
      }
      o := None;
    }

    /** The search for an unused entry, or the oldest completed one. */
    method FindVictim() returns (r: Option<nat>)
      ensures r == Victim(table[..], seqno)
    {
      var lseq: nat, lseqi: nat := 0, table.Length;
      for i := 0 to table.Length
        invariant FirstUnused(table[..], 0) == FirstUnused(table[..], i) && (lseq, lseqi) == Oldest(table[..], seqno, i)
      {
        if table[i].state.Unused? {
          return Some(i);
        }
        if table[i].state.Done? {
          var age := Age(seqno, table[i]);
          if age > lseq {
            lseq, lseqi := age, i;
          }
        }
      }
      r := if lseqi >= table.Length then None else Some(lseqi);
    }

    method FillEntry(i: nat, r: nat, name: seq<Byte>, addrType: AddrType) returns (newId: nat)
      requires i < table.Length < 0x10000 && r < requests.Length && 0 < servers.Length && !table[i].state.Asking?
      modifies this, table, requests
      ensures Now() == Fill(cfg, old(Now()), i, r, name, addrType, newId) && Fresh(old(table[..]), -1, newId)
    {
      hide DnsModel.CheckEntry;
      ghost var was := Now();
      table[i] := table[i].(state := New, seqno := seqno, addrType := addrType, name := name, number := queries);
      requests[r] := Some(Request(accepted, i));
      accepted := accepted + 1;
      seqno := (seqno + 1) % 256;
      queries := queries + 1;
      ghost var mid := table[..];
      assert Now() == Filled(was, i, r, name, addrType);
      newId := CheckEntry(i);
      assert forall j {:trigger was.table[j]} :: 0 <= j < |was.table| && j != i ==> mid[j] == was.table[j];
    }

    /** dns_correct_response */
    method CorrectResponse(i: nat, ttl: nat, addr: int, v6: bool)
      requires i < table.Length
      modifies this`log, table, requests
      ensures Now() == Resolve(cfg, old(Now()), i, ttl, addr, v6)
    {
      ghost var was := Now();
      var t := Min(ttl, cfg.maxTtl);
      table[i] := table[i].(state := Done, ttl := t, addr := addr, addrType := if v6 then V6 else V4, granted := t, aged := 0);
      ghost var s1 := Put(was, i, table[i]);
      assert Now() == s1;
      CallKeepsTable(s1, i, Address(addr), |s1.requests|);
      CallFound(i, Address(addr));
      if table[i].ttl == 0 {
        table[i] := table[i].(state := Unused);
        assert table[..] == s1.table[i := table[i]];
      }
    }
  }

  /** The distance from the id tried first, around 16 bits. */
  function Offset(first: nat, x: nat): nat {
    if x >= first then x - first else if x + 0x10000 >= first then x + 0x10000 - first else 0
  }

  /** The ids from `first` up to but not including x have been tried, and all of them are used. */
  ghost predicate Searched(first: nat, tried: set<nat>, used: set<nat>, x: nat) {
    && first < 0x10000 && x < 0x10000 && tried <= used && |used| < 0x10000
    && (forall y :: y in tried ==> Offset(first, y) < |tried|)
    && Offset(first, x) == |tried|
  }

  lemma SearchedStart(first: nat, used: set<nat>)
    requires first < 0x10000 && |used| < 0x10000
    ensures Searched(first, {}, used, first)
  {
  }

  lemma SearchedStep(first: nat, tried: set<nat>, used: set<nat>, x: nat)
    requires Searched(first, tried, used, x) && x in used
    ensures Searched(first, tried + {x}, used, (x + 1) % 0x10000) && |used - (tried + {x})| < |used - tried|
  {
    hide Offset;
    assert used - tried == used - (tried + {x}) + {x};
    SubsetCard(tried + {x}, used);
    assert x !in tried && |tried + {x}| == |tried| + 1;
    OffsetNext(first, x);
  }

  lemma OffsetNext(first: nat, x: nat)
    requires first < 0x10000 && x < 0x10000 && Offset(first, x) < 0xffff
    ensures Offset(first, (x + 1) % 0x10000) == Offset(first, x) + 1
  {
  }

  ghost function UsedIds(table: seq<Entry>): set<nat> {
    if table == [] then {} else UsedIds(table[1..]) + (if table[0].state.Asking? then {table[0].txid} else {})
  }

  lemma {:induction false} UsedIdsFew(table: seq<Entry>)
    ensures |UsedIds(table)| <= |table|
  {
    if table != [] { UsedIdsFew(table[1..]); }
  }

  lemma {:induction false} UsedIdsHas(table: seq<Entry>, x: nat)
    requires !Fresh(table, -1, x)
    ensures x in UsedIds(table)
  {
    var j :| 0 <= j < |table| && table[j].state.Asking? && table[j].txid == x;
    if j > 0 {
      assert table[1..][j - 1] == table[j];
      UsedIdsHas(table[1..], x);
    }
  }

  /** Only a new query looks at the transaction id. */
  lemma CheckAnyId(c: Config, s: State, i: nat, id: nat)
    requires Good(c, s) && i < |s.table|
    ensures EntryOk(c, |s.servers|, s.queries, s.table[i]) && DnsModel.CheckEntry(c, s, i, id) == DnsModel.CheckEntry(c, s, i, 0)
  {
  }
}
