/** Runs of the resolver: every call that is accepted is answered exactly once, and in time. */
module DnsRuns {
  import opened Basics
  import opened DnsModel
  import opened DnsProofs

  // ---- a step about one entry touches nothing else

  ghost predicate Local(s: State, s': State, i: nat) {
    && |s'.table| == |s.table| && |s'.requests| == |s.requests| && s'.servers == s.servers && s.log <= s'.log
    && (forall j {:trigger s'.table[j]} :: 0 <= j < |s.table| && j != i ==> s'.table[j] == s.table[j])
    && (forall r {:trigger s'.requests[r]} :: 0 <= r < |s.requests| ==>
          s'.requests[r] == s.requests[r] || (WaitsFor(s.requests[r], i) && s'.requests[r].None?))
  }

  /** A call that waited and does not any more has been answered. */
  lemma GoneIsLogged(c: Config, s: State, s': State, i: nat, r: nat)
    requires Good(c, s) && Good(c, s') && s'.accepted == s.accepted && |s'.requests| == |s.requests|
    requires r < |s.requests| && s.requests[r].Some? && s'.requests[r].None?
    requires forall q {:trigger s'.requests[q]} :: 0 <= q < |s.requests| && s'.requests[q].Some? ==> s'.requests[q] == s.requests[q]
    ensures Logged(s'.log, s.requests[r].value.id)
  {
  }

  lemma FlushLocal(s: State, i: nat)
    requires i < |s.table| && Once(s.requests, s.log, s.accepted)
    ensures Local(s, Flush(s, i), i) && Flush(s, i).table[i].state.Unused? && Flush(s, i).accepted == s.accepted
    ensures forall r {:trigger Flush(s, i).requests[r]} :: 0 <= r < |s.requests| ==> !WaitsFor(Flush(s, i).requests[r], i)
  {
    hide Once;
    CallKeepsTable(s, i, NoAddress, |s.requests|);
    CallUpToIs(s, i, NoAddress, |s.requests|);
  }

  lemma ResolveLocal(c: Config, s: State, i: nat, ttl: nat, addr: int, v6: bool)
    requires i < |s.table| && Once(s.requests, s.log, s.accepted)
    ensures var s' := Resolve(c, s, i, ttl, addr, v6);
            && Local(s, s', i) && !s'.table[i].state.Asking? && s'.accepted == s.accepted
            && forall r {:trigger s'.requests[r]} :: 0 <= r < |s.requests| ==> !WaitsFor(s'.requests[r], i)
  {
    hide Once;
    var t := Min(ttl, c.maxTtl);
    var s1 := Put(s, i, s.table[i].(state := Done, ttl := t, addr := addr, addrType := if v6 then V6 else V4, granted := t, aged := 0));
    CallKeepsTable(s1, i, Address(addr), |s.requests|);
    CallUpToIs(s1, i, Address(addr), |s.requests|);
  }

  // ---- the time a query takes

  function Tri(n: nat): nat { if n == 0 then 0 else n + Tri(n - 1) }

  function Mul(n: nat, w: nat): nat { if n == 0 then 0 else w + Mul(n - 1, w) }

  /** Ticks one server is given: 1 + 1 + 2 + ... + (DNS_MAX_RETRIES - 1). */
  function PerServer(c: Config): nat
    requires c.maxRetries > 0
  {
    1 + Tri(c.maxRetries - 1)
  }

  function Fallbacks(t: AddrType): nat { if t.V4V6? || t.V6V4? then 1 else 0 }

  /** Ticks until a pending entry gives up if nothing is heard. */
  function Left(c: Config, servers: nat, e: Entry): int
    requires c.maxRetries > 0 && e.server < servers && e.retries < c.maxRetries
  {
    Mul(servers - 1 - e.server, PerServer(c)) + (Tri(c.maxRetries - 1) - Tri(e.retries)) + e.tmr
  }

  /** The same, should the other address family still have to be tried. */
  function LeftInAll(c: Config, servers: nat, e: Entry): int
    requires c.maxRetries > 0 && e.server < servers && e.retries < c.maxRetries
  {
    Mul(Fallbacks(e.addrType), Mul(servers, PerServer(c))) + Left(c, servers, e)
  }

  lemma {:induction false} TriGrows(a: nat, b: nat)
    requires a <= b
    ensures Tri(a) <= Tri(b)
    decreases b
  {
    if a < b { TriGrows(a, b - 1); }
  }

  /** n (n + 1) / 2 */
  lemma {:induction false} TriIs(n: nat)
    ensures 2 * Tri(n) == n * (n + 1)
  {
    if n > 0 {
      TriIs(n - 1);
      assert n * (n + 1) == (n - 1) * n + 2 * n;
    }
  }

  lemma {:induction false} MulIs(n: nat, w: nat)
    ensures Mul(n, w) == n * w
  {
    if n > 0 {
      MulIs(n - 1, w);
      assert n * w == (n - 1) * w + w;
    }
  }

  ghost predicate Timed(c: Config, servers: nat, e: Entry) {
    c.maxRetries > 0 && e.server < servers && e.retries < c.maxRetries
  }

  /** Pending entry e has become e', at least `ticks` ticks closer to its end. */
  ghost predicate Closer(c: Config, servers: nat, e: Entry, e': Entry, ticks: nat)
    requires Timed(c, servers, e)
  {
    e'.state.Asking? ==>
      && Timed(c, servers, e')
      && Left(c, servers, e') + ticks <= Left(c, servers, e) && LeftInAll(c, servers, e') + ticks <= LeftInAll(c, servers, e)
  }

  /** A pending entry needs at most this many ticks. */
  lemma LeftBound(c: Config, servers: nat, queries: nat, e: Entry)
    requires EntryOk(c, servers, queries, e) && e.state.Asking?
    ensures Timed(c, servers, e)
    ensures 0 < Left(c, servers, e) <= Mul(servers, PerServer(c))
    ensures LeftInAll(c, servers, e) <= Mul(1 + Fallbacks(e.addrType), Mul(servers, PerServer(c)))
  {
    TriGrows(e.retries, c.maxRetries - 1);
    MulGrows(servers - 1 - e.server, servers - 1, PerServer(c));
  }

  lemma {:induction false} MulGrows(a: nat, b: nat, w: nat)
    requires a <= b
    ensures Mul(a, w) <= Mul(b, w)
    decreases b
  {
    if a < b { MulGrows(a, b - 1, w); }
  }

  lemma SendLocal(s: State, s1: State, i: nat)
    requires i < |s1.table| && Once(s1.requests, s1.log, s1.accepted) && s1.table[i].server < |s1.servers|
    requires Local(s, s1, i) && s1.accepted == s.accepted && s1.requests == s.requests && s1.log == s.log
    ensures Local(s, Send(s1, i), i) && Send(s1, i).accepted == s.accepted
    ensures Send(s1, i).table[i] == s1.table[i] || Send(s1, i).table[i].state.Unused?
  {
    hide Once;
    if !s1.servers[s1.table[i].server] { FlushLocal(s1, i); }
  }

  /** A tick of a pending entry: it touches only this entry, and time runs. */
  lemma AskingAges(c: Config, s: State, i: nat, txid: nat)
    requires Good(c, s) && i < |s.table| && s.table[i].state.Asking?
    ensures EntryOk(c, |s.servers|, s.queries, s.table[i])
    ensures var s' := CheckEntry(c, s, i, txid);
            Local(s, s', i) && s'.accepted == s.accepted && Closer(c, |s.servers|, s.table[i], s'.table[i], 1)
  {
    hide Once, Flush, Send;
    var e := s.table[i];
    assert EntryOk(c, |s.servers|, s.queries, e);
    if e.tmr - 1 != 0 {
    } else if e.retries + 1 != c.maxRetries {
      SendLocal(s, Put(s, i, e.(tmr := e.retries + 1, retries := e.retries + 1)), i);
    } else if Backup(s, e) {
      SendLocal(s, Put(s, i, e.(server := e.server + 1, tmr := 1, retries := 0)), i);
    } else {
      FlushLocal(Put(s, i, e.(tmr := 0, retries := e.retries + 1)), i);
    }
  }

  /** Any entry's check touches only this entry. */
  lemma CheckLocal(c: Config, s: State, i: nat, txid: nat)
    requires Good(c, s) && i < |s.table|
    ensures EntryOk(c, |s.servers|, s.queries, s.table[i])
    ensures var s' := CheckEntry(c, s, i, txid); Local(s, s', i) && s'.accepted == s.accepted
  {
    assert EntryOk(c, |s.servers|, s.queries, s.table[i]);
    if s.table[i].state.Asking? { AskingAges(c, s, i, txid); }
  }

  /** A new query touches only its own entry. */
  lemma NewLocal(c: Config, s: State, i: nat, txid: nat)
    requires GoodExcept(c, s, i) && i < |s.table| && s.table[i].state.New?
    ensures var s' := CheckEntry(c, s, i, txid);
            && Local(s, s', i) && s'.accepted == s.accepted
            && (s'.table[i].state.Asking? ==>
                  s'.table[i] == s.table[i].(txid := txid, state := Asking, server := 0, tmr := 1, retries := 0))
  {
    hide Once, Flush, Send;
    SendLocal(s, Put(s, i, s.table[i].(txid := txid, state := Asking, server := 0, tmr := 1, retries := 0)), i);
  }

  /** A reply touches only the entry it belongs to, and never gives it more time. */
  lemma ReceiveLocal(c: Config, s: State, i: nat, reply: Reply, txid: nat)
    requires Good(c, s) && i < |s.table| && s.table[i].state.Asking?
    ensures EntryOk(c, |s.servers|, s.queries, s.table[i]) && Timed(c, |s.servers|, s.table[i])
    ensures var s' := Receive(c, s, i, reply, txid);
            && Local(s, s', i) && s'.accepted == s.accepted
            && (s'.table[i].state.Asking? ==>
                  Timed(c, |s.servers|, s'.table[i]) && LeftInAll(c, |s.servers|, s'.table[i]) <= LeftInAll(c, |s.servers|, s.table[i]))
  {
    hide Once, Flush, Send, Resolve, CheckEntry;
    var e := s.table[i];
    assert EntryOk(c, |s.servers|, s.queries, e) && Alone(s.table, -1, i);
    LeftBound(c, |s.servers|, s.queries, e);
    match reply
    case Ignored =>
    case Found(ttl, addr, v6) => ResolveLocal(c, s, i, ttl, addr, v6);
    case Failure =>
      if Backup(s, e) {
        FailureLocal(c, s, i, txid);
      } else {
        FlushLocal(s, i);
      }
    case NothingUseful =>
      if e.addrType.V4V6? {
        NewLocal(c, Put(s, i, e.(addrType := V6, state := New)), i, txid);
      } else if e.addrType.V6V4? {
        NewLocal(c, Put(s, i, e.(addrType := V4, state := New)), i, txid);
      } else {
        FlushLocal(s, i);
      }
  }

  /** After a failure reported by its server an entry goes on with the next one. */
  lemma FailureLocal(c: Config, s: State, i: nat, txid: nat)
    requires Good(c, s) && i < |s.table| && s.table[i].state.Asking? && Backup(s, s.table[i])
    ensures EntryOk(c, |s.servers|, s.queries, s.table[i])
    ensures var s' := CheckEntry(c, Put(s, i, s.table[i].(retries := c.maxRetries - 1, tmr := 1)), i, txid);
            && Local(s, s', i) && s'.accepted == s.accepted && Closer(c, |s.servers|, s.table[i], s'.table[i], 0)
  {
    hide Once, CheckEntry;
    var e := s.table[i];
    assert EntryOk(c, |s.servers|, s.queries, e) && Alone(s.table, -1, i);
    var e' := e.(retries := c.maxRetries - 1, tmr := 1);
    PutAsking(c, s, i, e');
    AskingAges(c, Put(s, i, e'), i, txid);
    TriGrows(e.retries, c.maxRetries - 1);
  }

  /** A callback for this call with this answer has been made after the first n. */
  ghost predicate AnsweredWith(log: seq<Call>, n: nat, id: nat, a: Answer) {
    exists k :: n <= k < |log| && log[k] == Call(id, a)
  }

  /** Whoever waits for the entry is called with exactly this answer. */
  lemma CallFoundAnswers(s: State, i: nat, a: Answer, r: nat)
    requires Once(s.requests, s.log, s.accepted) && r < |s.requests| && WaitsFor(s.requests[r], i)
    ensures AnsweredWith(CallFound(s, i, a).log, |s.log|, s.requests[r].value.id, a)
  {
    CallUpToIs(s, i, a, |s.requests|);
    CallKeepsTable(s, i, a, |s.requests|);
    var s', id := CallFound(s, i, a), s.requests[r].value.id;
    forall q | 0 <= q < |s'.requests| && s'.requests[q].Some? ensures s'.requests[q].value.id != id {
      assert s'.requests[q] == s.requests[q];
    }
    assert !Waiting(s'.requests, id);
    assert Logged(s'.log, id) && !Logged(s.log, id);
    var k :| 0 <= k < |s'.log| && s'.log[k].id == id;
    assert s.log <= s'.log && s'.log[..|s.log|] == s.log;
    assert s'.log[k] == Call(id, a);
  }

  /** An address found is passed to every call waiting for the name; a name given up is reported as such. */
  lemma RightAnswers(c: Config, s: State, i: nat, r: nat, ttl: nat, addr: int, v6: bool)
    requires Good(c, s) && i < |s.table| && r < |s.requests| && WaitsFor(s.requests[r], i)
    ensures AnsweredWith(Resolve(c, s, i, ttl, addr, v6).log, |s.log|, s.requests[r].value.id, Address(addr))
    ensures AnsweredWith(Flush(s, i).log, |s.log|, s.requests[r].value.id, NoAddress)
  {
    hide Once, CallFound;
    var t := Min(ttl, c.maxTtl);
    CallFoundAnswers(Put(s, i, s.table[i].(state := Done, ttl := t, addr := addr, addrType := if v6 then V6 else V4, granted := t, aged := 0)), i, Address(addr), r);
    CallFoundAnswers(s, i, NoAddress, r);
  }

  // ---- steps

  /** Ask: dns_enqueue; Tick: dns_tmr; Packet: dns_recv; SetServer: dns_setserver. `newId` is what dns_create_txid returns. */
  datatype Event =
    | Ask(name: seq<Byte>, addrType: AddrType, newId: nat)
    | Tick
    | Packet(txid: nat, reply: Reply, newId: nat)
    | SetServer(k: nat, on: bool)

  lemma CheckKeeps(c: Config, s: State, i: nat)
    requires Good(c, s) && i < |s.table|
    ensures 0 < |s.servers| && (s.table[i].state.Asking? ==> s.table[i].server < |s.servers| && s.table[i].tmr > 0)
    ensures var s' := CheckEntry(c, s, i, 0); Good(c, s') && |s'.table| == |s.table| && s'.servers == s.servers
  {
    hide CheckEntry, Once;
    CheckEntryGood(c, s, i, 0);
    CheckLocal(c, s, i, 0);
  }

  /** dns_check_entries, up to entry n. */
  ghost function CheckUpTo(c: Config, s: State, n: nat): (r: State)
    requires Good(c, s) && n <= |s.table|
    ensures Good(c, r) && |r.table| == |s.table| && r.servers == s.servers
    decreases n
  {
    if n == 0 then s
    else
      var s1 := CheckUpTo(c, s, n - 1);
      CheckKeeps(c, s1, n - 1);
      CheckEntry(c, s1, n - 1, 0)
  }

  ghost predicate Enabled(s: State, e: Event) {
    match e
    case Ask(name, addrType, newId) => Fills(s, name, addrType) ==> Fresh(s.table, -1, newId)
    case Packet(txid, reply, newId) =>
      var m := Match(s.table, txid, 0);
      m.Some? && m.value < |s.table| && Restarts(s.table[m.value], reply) ==> Fresh(s.table, m.value, newId)
    case SetServer(k, _) => k < |s.servers|
    case Tick => true
  }

  /** dns_recv */
  ghost function Arrive(c: Config, s: State, txid: nat, reply: Reply, newId: nat): State
    requires Good(c, s)
  {
    MatchIs(s.table, txid, 0);
    var m := Match(s.table, txid, 0);
    if m.None? then s else (assert EntryOk(c, |s.servers|, s.queries, s.table[m.value]); Receive(c, s, m.value, reply, newId))
  }

  ghost function Next(c: Config, s: State, e: Event): State
    requires Good(c, s) && Enabled(s, e)
  {
    match e
    case Ask(name, addrType, newId) => Enqueue(c, s, name, addrType, newId).0
    case Tick => CheckUpTo(c, s, |s.table|)
    case Packet(txid, reply, newId) => Arrive(c, s, txid, reply, newId)
    case SetServer(k, on) => s.(servers := s.servers[k := on])
  }

  lemma {:induction false} MatchIs(table: seq<Entry>, txid: nat, i: nat)
    requires i <= |table|
    ensures var m := Match(table, txid, i);
            && (m.Some? ==> i <= m.value < |table| && Matches(table[m.value], txid))
            && (m.None? ==> forall k {:trigger table[k]} :: i <= k < |table| ==> !Matches(table[k], txid))
    decreases |table| - i
  {
    if i < |table| && !Matches(table[i], txid) { MatchIs(table, txid, i + 1); }
  }

  /** A reply belongs to at most one entry. */
  lemma OneMatch(c: Config, s: State, txid: nat, i: nat, j: nat)
    requires Good(c, s) && i < |s.table| && j < |s.table| && Matches(s.table[i], txid) && Matches(s.table[j], txid)
    ensures i == j
  {
  }

  lemma NextGood(c: Config, s: State, e: Event)
    requires Good(c, s) && Enabled(s, e)
    ensures Good(c, Next(c, s, e))
  {
    hide Once, Enqueue, Receive;
    match e
    case Ask(name, addrType, newId) => EnqueueGood(c, s, name, addrType, newId);
    case Tick =>
    case Packet(txid, reply, newId) =>
      MatchIs(s.table, txid, 0);
      var m := Match(s.table, txid, 0);
      if m.Some? { ReceiveGood(c, s, m.value, reply, newId); }
    case SetServer(k, on) =>
  }

  // ---- what a step does to a call that waits in slot r

  /** The call is answered, or it still waits for the same entry, `ticks` closer to the end. */
  ghost predicate Carries(c: Config, s: State, s': State, r: nat, ticks: nat, silent: bool)
    requires r < |s.requests| && s.requests[r].Some?
    requires s.requests[r].value.idx < |s.table| && Timed(c, |s.servers|, s.table[s.requests[r].value.idx])
  {
    var q := s.requests[r].value;
    || Logged(s'.log, q.id)
    || (&& |s'.requests| == |s.requests| && s'.requests[r] == s.requests[r]
        && |s'.table| == |s.table| && |s'.servers| == |s.servers| && Timed(c, |s.servers|, s'.table[q.idx])
        && LeftInAll(c, |s.servers|, s'.table[q.idx]) + ticks <= LeftInAll(c, |s.servers|, s.table[q.idx])
        && (silent ==> Left(c, |s.servers|, s'.table[q.idx]) + ticks <= Left(c, |s.servers|, s.table[q.idx])))
  }

  lemma SlotFacts(c: Config, s: State, r: nat)
    requires Good(c, s) && r < |s.requests| && s.requests[r].Some?
    ensures var q := s.requests[r].value;
            q.idx < |s.table| && s.table[q.idx].state.Asking? && EntryOk(c, |s.servers|, s.queries, s.table[q.idx]) && Timed(c, |s.servers|, s.table[q.idx])
  {
  }

  /** A step about one entry, which for the entry itself takes `ticks` of its time. */
  lemma LocalCarries(c: Config, s: State, s': State, i: nat, r: nat, ticks: nat, silent: bool)
    requires Good(c, s) && Good(c, s') && Local(s, s', i) && s'.accepted == s.accepted
    requires r < |s.requests| && s.requests[r].Some? && i < |s.table|
    requires s.requests[r].value.idx == i && s'.table[i].state.Asking? ==>
               && Timed(c, |s.servers|, s.table[i]) && Timed(c, |s.servers|, s'.table[i])
               && LeftInAll(c, |s.servers|, s'.table[i]) + ticks <= LeftInAll(c, |s.servers|, s.table[i])
               && (silent ==> Left(c, |s.servers|, s'.table[i]) + ticks <= Left(c, |s.servers|, s.table[i]))
    ensures s.requests[r].value.idx < |s.table| && Timed(c, |s.servers|, s.table[s.requests[r].value.idx])
    ensures Carries(c, s, s', r, if s.requests[r].value.idx == i then ticks else 0, silent)
  {
    SlotFacts(c, s, r);
    if s'.requests[r].None? {
      GoneIsLogged(c, s, s', i, r);
    } else {
      SlotFacts(c, s', r);
    }
  }

  lemma LogGrows(a: seq<Call>, b: seq<Call>, id: nat)
    requires a <= b && Logged(a, id)
    ensures Logged(b, id)
  {
  }

  /** One entry is checked. */
  lemma CheckCarries(c: Config, s: State, i: nat, r: nat)
    requires Good(c, s) && i < |s.table| && r < |s.requests| && s.requests[r].Some?
    ensures EntryOk(c, |s.servers|, s.queries, s.table[i])
    ensures s.requests[r].value.idx < |s.table| && Timed(c, |s.servers|, s.table[s.requests[r].value.idx])
    ensures var s' := CheckEntry(c, s, i, 0);
            s.log <= s'.log && Carries(c, s, s', r, if s.requests[r].value.idx == i then 1 else 0, true)
  {
    hide CheckEntry, Once, Left, LeftInAll;
    CheckEntryGood(c, s, i, 0);
    CheckLocal(c, s, i, 0);
    SlotFacts(c, s, r);
    if s.requests[r].value.idx == i { AskingAges(c, s, i, 0); }
    LocalCarries(c, s, CheckEntry(c, s, i, 0), i, r, 1, true);
  }

  lemma {:induction false} UpToCarries(c: Config, s: State, n: nat, r: nat)
    requires Good(c, s) && n <= |s.table| && r < |s.requests| && s.requests[r].Some?
    ensures s.requests[r].value.idx < |s.table| && Timed(c, |s.servers|, s.table[s.requests[r].value.idx])
    ensures Carries(c, s, CheckUpTo(c, s, n), r, if s.requests[r].value.idx < n then 1 else 0, true)
    decreases n
  {
    hide Good, CheckEntry, Left, LeftInAll;
    SlotFacts(c, s, r);
    if n > 0 {
      UpToCarries(c, s, n - 1, r);
      var s1 := CheckUpTo(c, s, n - 1);
      CheckEntryGood(c, s1, n - 1, 0);
      CheckLocal(c, s1, n - 1, 0);
      if Logged(s1.log, s.requests[r].value.id) {
        LogGrows(s1.log, CheckEntry(c, s1, n - 1, 0).log, s.requests[r].value.id);
      } else {
        CheckCarries(c, s1, n - 1, r);
      }
    }
  }

  lemma PacketCarries(c: Config, s: State, txid: nat, reply: Reply, newId: nat, r: nat)
    requires Good(c, s) && Enabled(s, Packet(txid, reply, newId)) && r < |s.requests| && s.requests[r].Some?
    ensures s.requests[r].value.idx < |s.table| && Timed(c, |s.servers|, s.table[s.requests[r].value.idx])
    ensures Carries(c, s, Next(c, s, Packet(txid, reply, newId)), r, 0, false)
  {
    hide Receive, Once, Left, LeftInAll;
    SlotFacts(c, s, r);
    MatchIs(s.table, txid, 0);
    var m := Match(s.table, txid, 0);
    if m.Some? {
      ReceiveGood(c, s, m.value, reply, newId);
      ReceiveLocal(c, s, m.value, reply, newId);
      LocalCarries(c, s, Receive(c, s, m.value, reply, newId), m.value, r, 0, false);
    }
  }

  /** A new query touches neither a pending entry nor a slot in use, so that queries in flight go on. */
  lemma AskKeeps(c: Config, s: State, name: seq<Byte>, addrType: AddrType, newId: nat)
    requires Good(c, s) && (Fills(s, name, addrType) ==> Fresh(s.table, -1, newId))
    ensures var s' := Enqueue(c, s, name, addrType, newId).0;
            && |s'.table| == |s.table| && |s'.requests| == |s.requests| && s'.servers == s.servers && s.log <= s'.log
            && (forall j {:trigger s'.table[j]} :: 0 <= j < |s.table| && s.table[j].state.Asking? ==> s'.table[j] == s.table[j])
            && (forall r {:trigger s'.requests[r]} :: 0 <= r < |s.requests| && s.requests[r].Some? ==> s'.requests[r] == s.requests[r])
  {
    hide Once, SameName, CheckEntry;
    var dup, slot, v := FirstDuplicate(s.table, name, addrType, 0), FirstFree(s.requests, 0), Victim(s.table, s.seqno);
    if !(dup.Some? && slot.Some?) && v.Some? && slot.Some? {
      FillLocal(c, s, v.value, slot.value, name, addrType, newId);
    }
  }

  lemma FillLocal(c: Config, s: State, i: nat, r: nat, name: seq<Byte>, addrType: AddrType, newId: nat)
    requires Good(c, s) && i < |s.table| && r < |s.requests| && s.requests[r].None? && !s.table[i].state.Asking?
    requires Fresh(s.table, i, newId)
    ensures var s' := Fill(c, s, i, r, name, addrType, newId);
            && |s'.table| == |s.table| && |s'.requests| == |s.requests| && s'.servers == s.servers && s.log <= s'.log
            && (forall j {:trigger s'.table[j]} :: 0 <= j < |s.table| && j != i ==> s'.table[j] == s.table[j])
            && (forall q {:trigger s'.requests[q]} :: 0 <= q < |s.requests| && s.requests[q].Some? ==> s'.requests[q] == s.requests[q])
  {
    hide Once, CheckEntry;
    FilledReady(c, s, i, r, name, addrType);
    NewLocal(c, Filled(s, i, r, name, addrType), i, newId);
    // whoever waits, waits for a pending entry, and i is none
    forall q {:trigger s.requests[q]} | 0 <= q < |s.requests| && s.requests[q].Some? ensures !WaitsFor(s.requests[q], i) {
    }
  }

  function TicksOf(e: Event): nat { if e.Tick? then 1 else 0 }

  /** Every step answers a waiting call or brings it closer; a tick by one tick at least. */
  lemma NextCarries(c: Config, s: State, e: Event, r: nat)
    requires Good(c, s) && Enabled(s, e) && r < |s.requests| && s.requests[r].Some?
    ensures s.requests[r].value.idx < |s.table| && Timed(c, |s.servers|, s.table[s.requests[r].value.idx])
    ensures Carries(c, s, Next(c, s, e), r, TicksOf(e), !e.Packet?)
  {
    hide Good, Enqueue, Receive, Left, LeftInAll;
    SlotFacts(c, s, r);
    match e
    case Ask(name, addrType, newId) => AskKeeps(c, s, name, addrType, newId);
    case Tick => UpToCarries(c, s, |s.table|, r);
    case Packet(txid, reply, newId) => PacketCarries(c, s, txid, reply, newId, r);
    case SetServer(k, on) =>
  }

  // ---- runs

  ghost predicate Start(c: Config, s: State) {
    && c.maxRetries > 0 && |s.servers| > 0 && s.seqno == s.queries == s.accepted == 0 && s.log == [] && s.sent == []
    && (forall i {:trigger s.table[i]} :: 0 <= i < |s.table| ==> s.table[i].state.Unused?)
    && (forall r {:trigger s.requests[r]} :: 0 <= r < |s.requests| ==> s.requests[r].None?)
  }

  ghost predicate Moves(c: Config, s: State, e: Event, s': State) {
    Good(c, s) ==> Enabled(s, e) && s' == Next(c, s, e)
  }

  ghost predicate IsTrace(c: Config, ss: seq<State>, es: seq<Event>) {
    && |ss| == |es| + 1 && Start(c, ss[0])
    && forall i {:trigger es[i]} :: 0 <= i < |es| ==> Moves(c, ss[i], es[i], ss[i + 1])
  }

  lemma {:induction false} TraceGood(c: Config, ss: seq<State>, es: seq<Event>, i: nat)
    requires IsTrace(c, ss, es) && i <= |es|
    ensures Good(c, ss[i])
  {
    hide Next;
    if i > 0 {
      TraceGood(c, ss, es, i - 1);
      assert Moves(c, ss[i - 1], es[i - 1], ss[i]);
      NextGood(c, ss[i - 1], es[i - 1]);
    }
  }

  /** At every moment of every run each accepted call either waits in exactly one slot, or its
      callback has been called, exactly once. */
  lemma ExactlyOnce(c: Config, ss: seq<State>, es: seq<Event>, i: nat, id: nat)
    requires IsTrace(c, ss, es) && i <= |es| && id < ss[i].accepted
    ensures Logged(ss[i].log, id) <==> !Waiting(ss[i].requests, id)
    ensures forall k, m :: 0 <= k < |ss[i].log| && 0 <= m < |ss[i].log| && ss[i].log[k].id == ss[i].log[m].id == id ==> k == m
  {
    TraceGood(c, ss, es, i);
    var s := ss[i];
    if Waiting(s.requests, id) {
      var r :| 0 <= r < |s.requests| && s.requests[r].Some? && s.requests[r].value.id == id;
    }
  }

  /** Timer ticks among the steps from i to j. */
  function Ticks(es: seq<Event>, i: nat, j: nat): nat
    requires i <= j <= |es|
    decreases j
  {
    if i == j then 0 else Ticks(es, i, j - 1) + TicksOf(es[j - 1])
  }

  ghost predicate Silent(es: seq<Event>, i: nat, j: nat)
    requires i <= j <= |es|
  {
    forall k {:trigger es[k]} :: i <= k < j ==> !es[k].Packet?
  }

  /** A call that waits at step i is answered by step j, or has that much less time left. */
  lemma {:induction false} WaitsLess(c: Config, ss: seq<State>, es: seq<Event>, i: nat, j: nat, r: nat)
    requires IsTrace(c, ss, es) && i <= j <= |es| && r < |ss[i].requests| && ss[i].requests[r].Some?
    ensures ss[i].requests[r].value.idx < |ss[i].table| && Timed(c, |ss[i].servers|, ss[i].table[ss[i].requests[r].value.idx])
    ensures Carries(c, ss[i], ss[j], r, Ticks(es, i, j), Silent(es, i, j))
    decreases j
  {
    hide Good, Next, Left, LeftInAll;
    TraceGood(c, ss, es, i);
    SlotFacts(c, ss[i], r);
    if i < j {
      WaitsLess(c, ss, es, i, j - 1, r);
      TraceGood(c, ss, es, j - 1);
      assert Moves(c, ss[j - 1], es[j - 1], ss[j]);
      if Logged(ss[j - 1].log, ss[i].requests[r].value.id) {
        NextLogGrows(c, ss[j - 1], es[j - 1]);
        LogGrows(ss[j - 1].log, ss[j].log, ss[i].requests[r].value.id);
      } else {
        NextCarries(c, ss[j - 1], es[j - 1], r);
      }
    }
  }

  lemma NextLogGrows(c: Config, s: State, e: Event)
    requires Good(c, s) && Enabled(s, e)
    ensures s.log <= Next(c, s, e).log
  {
    hide Once, Enqueue, Receive;
    match e
    case Ask(name, addrType, newId) => AskKeeps(c, s, name, addrType, newId);
    case Tick => UpToLogGrows(c, s, |s.table|);
    case Packet(txid, reply, newId) =>
      MatchIs(s.table, txid, 0);
      var m := Match(s.table, txid, 0);
      if m.Some? { ReceiveLocal(c, s, m.value, reply, newId); }
    case SetServer(k, on) =>
  }

  lemma {:induction false} UpToLogGrows(c: Config, s: State, n: nat)
    requires Good(c, s) && n <= |s.table|
    ensures s.log <= CheckUpTo(c, s, n).log
    decreases n
  {
    hide Good, CheckEntry;
    if n > 0 {
      UpToLogGrows(c, s, n - 1);
      CheckEntryGood(c, CheckUpTo(c, s, n - 1), n - 1, 0);
      CheckLocal(c, CheckUpTo(c, s, n - 1), n - 1, 0);
    }
  }

  /** DNS_MAX_SERVERS * (1 + R (R - 1) / 2) ticks without a reply answer every call accepted before, and
      twice as many do whatever the replies are (the second time for the other address family). */
  lemma AnsweredInTime(c: Config, ss: seq<State>, es: seq<Event>, i: nat, j: nat, id: nat)
    requires IsTrace(c, ss, es) && i <= j <= |es| && id < ss[i].accepted
    requires var bound := |ss[i].servers| * (1 + c.maxRetries * (c.maxRetries - 1) / 2);
             (Silent(es, i, j) && Ticks(es, i, j) >= bound) || Ticks(es, i, j) >= 2 * bound
    ensures Logged(ss[j].log, id)
  {
    TraceGood(c, ss, es, i);
    var s := ss[i];
    if Logged(s.log, id) {
      TraceLogGrows(c, ss, es, i, j);
      LogGrows(s.log, ss[j].log, id);
    } else {
      assert Waiting(s.requests, id);
      var r :| 0 <= r < |s.requests| && s.requests[r].Some? && s.requests[r].value.id == id;
      NotOverdue(c, ss, es, i, j, r);
    }
  }

  lemma {:induction false} TraceLogGrows(c: Config, ss: seq<State>, es: seq<Event>, i: nat, j: nat)
    requires IsTrace(c, ss, es) && i <= j <= |es|
    ensures ss[i].log <= ss[j].log
    decreases j
  {
    hide Good, Next;
    if i < j {
      TraceLogGrows(c, ss, es, i, j - 1);
      TraceGood(c, ss, es, j - 1);
      assert Moves(c, ss[j - 1], es[j - 1], ss[j]);
      NextLogGrows(c, ss[j - 1], es[j - 1]);
    }
  }

  lemma NotOverdue(c: Config, ss: seq<State>, es: seq<Event>, i: nat, j: nat, r: nat)
    requires IsTrace(c, ss, es) && i <= j <= |es| && r < |ss[i].requests| && ss[i].requests[r].Some?
    requires var bound := |ss[i].servers| * (1 + c.maxRetries * (c.maxRetries - 1) / 2);
             (Silent(es, i, j) && Ticks(es, i, j) >= bound) || Ticks(es, i, j) >= 2 * bound
    ensures Logged(ss[j].log, ss[i].requests[r].value.id)
  {
    hide Good, Next, Left, LeftInAll;
    var s, s', q := ss[i], ss[j], ss[i].requests[r].value;
    TraceGood(c, ss, es, i);
    TraceGood(c, ss, es, j);
    SlotFacts(c, s, r);
    WaitsLess(c, ss, es, i, j, r);
    LeftBound(c, |s.servers|, s.queries, s.table[q.idx]);
    BoundIs(c, |s.servers|);
    if !Logged(s'.log, q.id) {
      SlotFacts(c, s', r);
      LeftBound(c, |s.servers|, s'.queries, s'.table[q.idx]);
      InAllPositive(c, |s.servers|, s'.table[q.idx]);
      MulTwo(Mul(|s.servers|, PerServer(c)), Fallbacks(s.table[q.idx].addrType));
      assert false;
    }
  }

  lemma InAllPositive(c: Config, servers: nat, e: Entry)
    requires Timed(c, servers, e)
    ensures Left(c, servers, e) <= LeftInAll(c, servers, e)
  {
  }

  lemma MulTwo(x: nat, f: nat)
    requires f <= 1
    ensures Mul(1 + f, x) <= 2 * x
  {
    MulIs(1 + f, x);
  }

  lemma BoundIs(c: Config, servers: nat)
    requires c.maxRetries > 0
    ensures Mul(servers, PerServer(c)) == servers * (1 + c.maxRetries * (c.maxRetries - 1) / 2)
  {
    TriIs(c.maxRetries - 1);
    MulIs(servers, PerServer(c));
    hide Tri, Mul;
    assert c.maxRetries * (c.maxRetries - 1) == 2 * Tri(c.maxRetries - 1);
  }
}
