/**
 The resolver of dns.c with LWIP_DNS_SECURE_NO_MULTIPLE_OUTSTANDING: the table of names, the
 requests waiting for them, and the log of callbacks made. What the network decides (random
 transaction ids, the content of replies, which servers are configured) comes in with the steps.
*/
module DnsModel {
  import opened Basics

  /** DNS_MAX_RETRIES and DNS_MAX_TTL. */
  datatype Config = Config(maxRetries: nat, maxTtl: nat)

  datatype Phase = Unused | New | Asking | Done

  /** reqaddrtype: one family, or one first and the other as a fallback. */
  datatype AddrType = V4 | V6 | V4V6 | V6V4

  /** struct dns_table_entry. For the proof an entry also knows its number among all
      queries (seqno is that number cut to 8 bits), and for a cached answer how many
      ticks it was granted and how many of them are over. */
  datatype Entry = Entry(state: Phase, name: seq<Byte>, addrType: AddrType, txid: nat, server: nat, tmr: nat, retries: nat,
                         seqno: nat, ttl: nat, addr: int, number: nat, granted: nat, aged: nat)

  /** An occupied slot of dns_requests: which call it belongs to and which entry it waits for. */
  datatype Request = Request(id: nat, idx: nat)

  /** What a callback is called with: an address or NULL. */
  datatype Answer = NoAddress | Address(addr: int)

  datatype Call = Call(id: nat, answer: Answer)

  /** A packet with a question, and the number of the query it belongs to. */
  datatype Question = Question(number: nat, txid: nat, server: nat, name: seq<Byte>, v6: bool)

  /** servers: which of dns_servers are set; queries: how many entries have been filled;
      accepted: how many calls were answered with ERR_INPROGRESS; log: callbacks, oldest first;
      sent: questions handed to UDP, oldest first. */
  datatype State = State(table: seq<Entry>, requests: seq<Option<Request>>, servers: seq<bool>,
                         seqno: nat, queries: nat, accepted: nat, log: seq<Call>, sent: seq<Question>)

  // ---- dns_call_found

  predicate WaitsFor(q: Option<Request>, idx: nat) {
    q.Some? && q.value.idx == idx
  }

  /** The callbacks of the first n request slots that wait for entry idx have been called. */
  function CallUpTo(s: State, idx: nat, a: Answer, n: nat): (r: State)
    requires n <= |s.requests|
    ensures |r.requests| == |s.requests|
    decreases n
  {
    if n == 0 then s
    else
      var s1 := CallUpTo(s, idx, a, n - 1);
      if WaitsFor(s1.requests[n - 1], idx) then
        s1.(requests := s1.requests[n - 1 := None], log := s1.log + [Call(s1.requests[n - 1].value.id, a)])
      else s1
  }

  function CallFound(s: State, idx: nat, a: Answer): State {
    CallUpTo(s, idx, a, |s.requests|)
  }

  /** Tell everybody that the name cannot be resolved, and free the entry. */
  function Flush(s: State, i: nat): State
    requires i < |s.table|
  {
    var s1 := CallFound(s, i, NoAddress);
    CallKeepsTable(s, i, NoAddress, |s.requests|);
    s1.(table := s1.table[i := s1.table[i].(state := Unused)])
  }

  lemma {:induction false} CallKeepsTable(s: State, idx: nat, a: Answer, n: nat)
    requires n <= |s.requests|
    ensures var s' := CallUpTo(s, idx, a, n); s' == s.(requests := s'.requests, log := s'.log)
    decreases n
  {
    if n > 0 { CallKeepsTable(s, idx, a, n - 1); }
  }

  // ---- dns_send and dns_check_entry

  /** LWIP_DNS_ADDRTYPE_IS_IPV6 */
  predicate WantsV6(t: AddrType) {
    t.V6? || t.V6V4?
  }

  function QuestionOf(e: Entry): Question {
    Question(e.number, e.txid, e.server, e.name, WantsV6(e.addrType))
  }

  /** dns_send: without a server the query ends here, otherwise its question is sent; whether it then gets lost does not matter. */
  function Send(s: State, i: nat): State
    requires i < |s.table| && s.table[i].server < |s.servers|
  {
    if !s.servers[s.table[i].server] then Flush(s, i) else s.(sent := s.sent + [QuestionOf(s.table[i])])
  }

  predicate Backup(s: State, e: Entry) {
    e.server + 1 < |s.servers| && s.servers[e.server + 1]
  }

  function Put(s: State, i: nat, e: Entry): State
    requires i < |s.table|
  {
    s.(table := s.table[i := e])
  }

  /** dns_check_entry; txid is what dns_create_txid would return. */
  function CheckEntry(c: Config, s: State, i: nat, txid: nat): State
    requires i < |s.table| && 0 < |s.servers|
    requires s.table[i].state.Asking? ==> s.table[i].server < |s.servers| && s.table[i].tmr > 0
  {
    var e := s.table[i];
    match e.state
    case New => Send(Put(s, i, e.(txid := txid, state := Asking, server := 0, tmr := 1, retries := 0)), i)
    case Asking =>
      if e.tmr - 1 != 0 then Put(s, i, e.(tmr := e.tmr - 1))
      else if e.retries + 1 != c.maxRetries then Send(Put(s, i, e.(tmr := e.retries + 1, retries := e.retries + 1)), i)
      else if Backup(s, e) then Send(Put(s, i, e.(server := e.server + 1, tmr := 1, retries := 0)), i)
      else Flush(Put(s, i, e.(tmr := 0, retries := e.retries + 1)), i)
    case Done => Put(s, i, Aged(e))
    case Unused => s
  }

  /** A cached answer after one more tick. */
  function Aged(e: Entry): Entry {
    if e.ttl <= 1 then e.(ttl := 0, state := Unused) else e.(ttl := e.ttl - 1, aged := e.aged + 1)
  }

  // ---- dns_recv

  /** What a reply says, as far as dns_recv understands it. */
  datatype Reply = Ignored | Failure | NothingUseful | Found(ttl: nat, addr: int, v6: bool)

  predicate Matches(e: Entry, txid: nat) {
    e.state.Asking? && e.txid == txid
  }

  /** The first entry a reply with this id belongs to. */
  function Match(table: seq<Entry>, txid: nat, i: nat): Option<nat>
    requires i <= |table|
    decreases |table| - i
  {
    if i == |table| then None
    else if Matches(table[i], txid) then Some(i)
    else Match(table, txid, i + 1)
  }

  /** dns_correct_response */
  function Resolve(c: Config, s: State, i: nat, ttl: nat, addr: int, v6: bool): State
    requires i < |s.table|
  {
    var t := Min(ttl, c.maxTtl);
    var e := s.table[i].(state := Done, ttl := t, addr := addr, addrType := if v6 then V6 else V4, granted := t, aged := 0);
    var s1 := CallFound(Put(s, i, e), i, Address(addr));
    CallKeepsTable(Put(s, i, e), i, Address(addr), |s.requests|);
    if t == 0 then Put(s1, i, e.(state := Unused)) else s1
  }

  /** The reply makes the entry start again with the other address family. */
  predicate Restarts(e: Entry, reply: Reply) {
    reply.NothingUseful? && (e.addrType.V4V6? || e.addrType.V6V4?)
  }

  /** dns_recv once the entry is found. */
  function Receive(c: Config, s: State, i: nat, reply: Reply, txid: nat): State
    requires i < |s.table| && s.table[i].state.Asking? && s.table[i].server < |s.servers| && c.maxRetries > 0
  {
    var e := s.table[i];
    match reply
    case Ignored => s
    case Found(ttl, addr, v6) => Resolve(c, s, i, ttl, addr, v6)
    case Failure =>
      if Backup(s, e) then CheckEntry(c, Put(s, i, e.(retries := c.maxRetries - 1, tmr := 1)), i, txid) else Flush(s, i)
    case NothingUseful =>
      if e.addrType.V4V6? then CheckEntry(c, Put(s, i, e.(addrType := V6, state := New)), i, txid)
      else if e.addrType.V6V4? then CheckEntry(c, Put(s, i, e.(addrType := V4, state := New)), i, txid)
      else Flush(s, i)
  }

  // ---- dns_lookup

  predicate Cached(e: Entry, name: seq<Byte>, addrType: AddrType) {
    e.state.Done? && SameName(name, e.name) && WantsV6(addrType) == WantsV6(e.addrType)
  }

  /** The address of the first entry that has the name cached. */
  function Lookup(table: seq<Entry>, name: seq<Byte>, addrType: AddrType, i: nat): Option<int>
    requires i <= |table|
    decreases |table| - i
  {
    if i == |table| then None
    else if Cached(table[i], name, addrType) then Some(table[i].addr)
    else Lookup(table, name, addrType, i + 1)
  }

  // ---- dns_enqueue

  /** lwip_strnicmp says the names are equal. */
  predicate SameName(a: seq<Byte>, b: seq<Byte>) {
    |a| == |b| && forall i :: 0 <= i < |a| ==> Lower(a[i]) == Lower(b[i])
  }

  predicate Duplicate(e: Entry, name: seq<Byte>, addrType: AddrType) {
    e.state.Asking? && SameName(name, e.name) && e.addrType == addrType
  }

  function FirstDuplicate(table: seq<Entry>, name: seq<Byte>, addrType: AddrType, i: nat): (r: Option<nat>)
    requires i <= |table|
    ensures r.Some? ==> i <= r.value < |table| && Duplicate(table[r.value], name, addrType)
    decreases |table| - i
  {
    if i == |table| then None
    else if Duplicate(table[i], name, addrType) then Some(i)
    else FirstDuplicate(table, name, addrType, i + 1)
  }

  function FirstFree(requests: seq<Option<Request>>, r: nat): (o: Option<nat>)
    requires r <= |requests|
    ensures o.Some? ==> r <= o.value < |requests| && requests[o.value].None?
    ensures o.None? ==> forall k :: r <= k < |requests| ==> requests[k].Some?
    decreases |requests| - r
  {
    if r == |requests| then None else if requests[r].None? then Some(r) else FirstFree(requests, r + 1)
  }

  function FirstUnused(table: seq<Entry>, i: nat): (r: Option<nat>)
    requires i <= |table|
    ensures r.Some? ==> i <= r.value < |table| && table[r.value].state.Unused?
    ensures r.None? ==> forall k :: i <= k < |table| ==> !table[k].state.Unused?
    decreases |table| - i
  {
    if i == |table| then None else if table[i].state.Unused? then Some(i) else FirstUnused(table, i + 1)
  }

  /** (u8_t)(dns_seqno - entry->seqno) */
  function Age(seqno: nat, e: Entry): nat {
    (seqno as int - e.seqno as int) % 256
  }

  /** lseq and lseqi after the first n entries. */
  function Oldest(table: seq<Entry>, seqno: nat, n: nat): (r: (nat, nat))
    requires n <= |table|
    ensures r.1 < n || r.1 == |table|
    ensures r.1 < n ==> table[r.1].state.Done?
    decreases n
  {
    if n == 0 then (0, |table|)
    else
      var (lseq, lseqi) := Oldest(table, seqno, n - 1);
      if table[n - 1].state.Done? && Age(seqno, table[n - 1]) > lseq then (Age(seqno, table[n - 1]), n - 1) else (lseq, lseqi)
  }

  /** The entry dns_enqueue uses for a new query. */
  function Victim(table: seq<Entry>, seqno: nat): (r: Option<nat>)
    ensures r.Some? ==> r.value < |table| && (table[r.value].state.Unused? || table[r.value].state.Done?)
  {
    var u := FirstUnused(table, 0);
    var o := Oldest(table, seqno, |table|).1;
    if u.Some? then u else if o < |table| then Some(o) else None
  }

  /** A new query in entry i, with request slot r waiting for it. */
  function Filled(s: State, i: nat, r: nat, name: seq<Byte>, addrType: AddrType): State
    requires i < |s.table| && r < |s.requests|
  {
    var e := s.table[i].(state := New, seqno := s.seqno, addrType := addrType, name := name, number := s.queries);
    s.(table := s.table[i := e], requests := s.requests[r := Some(Request(s.accepted, i))], accepted := s.accepted + 1,
       seqno := (s.seqno + 1) % 256, queries := s.queries + 1)
  }

  function Fill(c: Config, s: State, i: nat, r: nat, name: seq<Byte>, addrType: AddrType, txid: nat): State
    requires i < |s.table| && r < |s.requests| && 0 < |s.servers|
  {
    CheckEntry(c, Filled(s, i, r, name, addrType), i, txid)
  }

  /** The name needs a query of its own and gets one. */
  predicate Fills(s: State, name: seq<Byte>, addrType: AddrType) {
    && FirstFree(s.requests, 0).Some? && FirstDuplicate(s.table, name, addrType, 0).None? && Victim(s.table, s.seqno).Some?
  }

  /** dns_enqueue; whether it returns ERR_INPROGRESS, and the state. */
  function Enqueue(c: Config, s: State, name: seq<Byte>, addrType: AddrType, txid: nat): (State, bool)
    requires 0 < |s.servers|
  {
    var dup, slot := FirstDuplicate(s.table, name, addrType, 0), FirstFree(s.requests, 0);
    if dup.Some? && slot.Some? then
      (s.(requests := s.requests[slot.value := Some(Request(s.accepted, dup.value))], accepted := s.accepted + 1), true)
    else
      var v := Victim(s.table, s.seqno);
      if v.None? || slot.None? then (s, false)
      else (Fill(c, s, v.value, slot.value, name, addrType, txid), true)
  }
}
