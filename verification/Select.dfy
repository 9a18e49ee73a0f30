/**
 lwip_select against event_callback, without core locking: every region between
 SYS_ARCH_PROTECT and SYS_ARCH_UNPROTECT is one step, and steps of any number of
 selecting threads, event handlers and sockets interleave freely.
*/
module Select {
  import opened SelectList

  /** One flag for each of the three fd_sets of select. */
  datatype Bit = Read | Write | Except
  datatype Bits = Bits(read: bool, write: bool, except: bool)

  predicate Has(bits: Bits, b: Bit) {
    match b case Read => bits.read case Write => bits.write case Except => bits.except
  }

  predicate Any(bits: Bits) {
    bits.read || bits.write || bits.except
  }

  predicate Within(a: Bits, b: Bits) {
    (a.read ==> b.read) && (a.write ==> b.write) && (a.except ==> b.except)
  }

  /** The event fields of struct lwip_sock. */
  datatype Sock = Sock(rcvevent: int, sendevent: bool, errevent: bool, waiting: nat)

  function Ready(k: Sock): Bits {
    Bits(k.rcvevent > 0, k.sendevent, k.errevent)
  }

  /** Where a thread is inside lwip_select, from linking its node to unlinking it again:
      raising select_waiting, scanning again, waiting, lowering select_waiting below `upto`. */
  datatype Phase = Out | Inc(i: nat) | Scan(i: nat, found: bool) | Wait | Dec(i: nat, upto: nat)

  /** watch: the fd_sets up to maxfdp1; clear: what the second scan read as not ready;
      signalled: sem_signalled; sem: the semaphore's count; signals: how often it was signalled. */
  datatype Thread = Thread(phase: Phase, watch: seq<Bits>, clear: seq<Bits>, signalled: bool, sem: nat, signals: nat)

  /** event_callback after it has updated the socket: about to enter select_check_waiters, or
      between two list nodes, having handled `at` when select_cb_ctr was `last`. */
  datatype Handler = Starting(s: nat, flags: Bits) | Paused(s: nat, flags: Bits, at: nat, last: nat) | Finished

  /** order: the nodes of the list, front first; lost: threads, and the sockets that became writable
      without their being told. */
  datatype System = System(socks: seq<Sock>, threads: seq<Thread>, list: List, order: seq<nat>, ctr: nat, handlers: seq<Handler>,
                           lost: set<(nat, nat)>)

  datatype Evt = RcvPlus | RcvMinus | SendPlus | SendMinus | Error

  /** ok: whether tryget_socket_unconn_locked succeeds; lastdata: whether the socket has some. */
  datatype Event =
    | Begin(t: nat, watch: seq<Bits>)
    | IncStep(t: nat, ok: bool)
    | ScanStep(t: nat, ok: bool, lastdata: bool)
    | Wake(t: nat)
    | Timeout(t: nat)
    | DecStep(t: nat)
    | Post(s: nat, evt: Evt)
    | Walk(k: nat)
    | Alloc(s: nat, writable: bool)

  const NONE := Bits(false, false, false)
  /** The number of values of SELWAIT_T. */
  const SELWAIT_LIMIT := 256

  // ---- event_callback

  /** The switch of event_callback: the new event fields and check_waiters. */
  function Update(k: Sock, evt: Evt): (Sock, bool) {
    match evt
    case RcvPlus => (k.(rcvevent := k.rcvevent + 1), k.rcvevent + 1 <= 1)
    case RcvMinus => (k.(rcvevent := k.rcvevent - 1), false)
    case SendPlus => (k.(sendevent := true), !k.sendevent)
    case SendMinus => (k.(sendevent := false), false)
    case Error => (k.(errevent := true), true)
  }

  function PostStep(y: System, s: nat, evt: Evt): System
    requires s < |y.socks|
  {
    var (k, check) := Update(y.socks[s], evt);
    y.(socks := y.socks[s := k],
       handlers := if k.waiting > 0 && check then y.handlers + [Starting(s, Ready(k))] else y.handlers)
  }

  /** Whether select_check_waiters signals a node for an event on s. */
  predicate Wanted(th: Thread, s: nat, flags: Bits) {
    && s < |th.watch|
    && ((flags.read && th.watch[s].read) || (flags.write && th.watch[s].write) || (flags.except && th.watch[s].except))
  }

  function Signal(th: Thread, s: nat, flags: Bits): Thread {
    if !th.signalled && Wanted(th, s, flags) then th.(signalled := true, sem := th.sem + 1, signals := th.signals + 1) else th
  }

  /** The handler has reached a node, or the end of the list. */
  function Visit(y: System, k: nat, node: int): System
    requires k < |y.handlers| && !y.handlers[k].Finished? && node < |y.threads|
  {
    var h := y.handlers[k];
    if node < 0 then y.(handlers := y.handlers[k := Finished])
    else y.(threads := y.threads[node := Signal(y.threads[node], h.s, h.flags)],
            handlers := y.handlers[k := Paused(h.s, h.flags, node, y.ctr)])
  }

  /** The node select_check_waiters goes to: the list's first if it starts, or if the list has changed. */
  function Target(y: System, h: Handler): int
    requires h.Paused? && h.last == y.ctr ==> h.at < |y.list.next|
  {
    if h.Starting? || (h.Paused? && h.last != y.ctr) then y.list.head
    else if h.Paused? then y.list.next[h.at]
    else -1
  }

  // ---- lwip_select

  /** Whether the thread counts in select_waiting of socket s. */
  predicate Watching(th: Thread, s: nat) {
    && s < |th.watch| && Any(th.watch[s])
    && match th.phase
       case Out => false
       case Inc(i) => s < i
       case Scan(_, _) => true
       case Wait => true
       case Dec(i, upto) => i <= s < upto
  }

  function Forget(lost: set<(nat, nat)>, t: nat): set<(nat, nat)> {
    set p | p in lost && p.0 != t
  }

  function BeginStep(y: System, t: nat, watch: seq<Bits>): System
    requires t < |y.threads| && t < |y.list.next| == |y.list.prev| && -1 <= y.list.head < |y.list.next|
  {
    y.(list := Link(y.list, t), order := [t] + y.order, ctr := y.ctr + 1, lost := Forget(y.lost, t),
       threads := y.threads[t := Thread(Inc(0), watch, seq(|watch|, _ => NONE), false, 0, 0)])
  }

  function IncNext(y: System, t: nat, ok: bool): System
    requires t < |y.threads| && y.threads[t].phase.Inc?
  {
    var th := y.threads[t];
    var i := th.phase.i;
    if i >= |th.watch| then y.(threads := y.threads[t := th.(phase := Scan(0, false))])
    else if !Any(th.watch[i]) then y.(threads := y.threads[t := th.(phase := Inc(i + 1))])
    else if !ok || i >= |y.socks| || y.socks[i].waiting + 1 >= SELWAIT_LIMIT then
      y.(threads := y.threads[t := th.(phase := Dec(0, i))])
    else
      y.(threads := y.threads[t := th.(phase := Inc(i + 1))],
         socks := y.socks[i := y.socks[i].(waiting := y.socks[i].waiting + 1)])
  }

  /** What lwip_selscan finds set for one socket. */
  function Found(w: Bits, k: Sock, lastdata: bool): Bits {
    Bits(w.read && (lastdata || k.rcvevent > 0), w.write && k.sendevent, w.except && k.errevent)
  }

  function Minus(a: Bits, b: Bits): Bits {
    Bits(a.read && !b.read, a.write && !b.write, a.except && !b.except)
  }

  function ScanNext(y: System, t: nat, ok: bool, lastdata: bool): System
    requires t < |y.threads| && y.threads[t].phase.Scan? && |y.threads[t].clear| == |y.threads[t].watch|
  {
    var th := y.threads[t];
    var i := th.phase.i;
    var th' :=
      if i >= |th.watch| then th.(phase := if th.phase.found then Dec(0, |th.watch|) else Wait)
      else if !Any(th.watch[i]) then th.(phase := Scan(i + 1, th.phase.found))
      else if !ok || i >= |y.socks| then th.(phase := Dec(0, |th.watch|))
      else
        var found := Found(th.watch[i], y.socks[i], lastdata);
        th.(phase := Scan(i + 1, th.phase.found || Any(found)), clear := th.clear[i := Minus(th.watch[i], found)]);
    y.(threads := y.threads[t := th'])
  }

  function DecNext(y: System, t: nat, k: nat): System
    requires t < |y.threads| && y.threads[t].phase.Dec? && k < |y.order| && y.order[k] == t
    requires t < |y.list.next| == |y.list.prev| && -1 <= y.list.next[t] < |y.list.next|
    requires y.list.head != t ==> 0 <= y.list.prev[t] < |y.list.next|
  {
    var th := y.threads[t];
    var i := th.phase.i;
    if i >= th.phase.upto then
      y.(list := Unlink(y.list, t), order := y.order[..k] + y.order[k + 1..], ctr := y.ctr + 1,
         threads := y.threads[t := th.(phase := Out)])
    else
      y.(threads := y.threads[t := th.(phase := Dec(i + 1, th.phase.upto))],
         socks := if i < |th.watch| && Any(th.watch[i]) && i < |y.socks| && y.socks[i].waiting > 0
                  then y.socks[i := y.socks[i].(waiting := y.socks[i].waiting - 1)] else y.socks)
  }

  // ---- the machine

  predicate Enabled(y: System, e: Event) {
    match e
    case Begin(t, _) => t < |y.threads| && y.threads[t].phase.Out?
    case IncStep(t, _) => t < |y.threads| && y.threads[t].phase.Inc?
    case ScanStep(t, _, _) => t < |y.threads| && y.threads[t].phase.Scan?
    case Wake(t) => t < |y.threads| && y.threads[t].phase.Wait? && y.threads[t].sem > 0
    case Timeout(t) => t < |y.threads| && y.threads[t].phase.Wait?
    case DecStep(t) => t < |y.threads| && y.threads[t].phase.Dec?
    case Post(s, _) => s < |y.socks|
    case Walk(k) => k < |y.handlers| && !y.handlers[k].Finished?
    // alloc_socket, also where its assertion that nobody waits for the slot fails
    case Alloc(s, _) => s < |y.socks|
  }

  ghost function Next(y: System, e: Event): System
    requires Good(y) && Enabled(y, e)
  {
    match e
    case Begin(t, watch) => BeginReady(y); BeginStep(y, t, watch)
    case IncStep(t, ok) => IncNext(y, t, ok)
    case ScanStep(t, ok, lastdata) => ScanNext(y, t, ok, lastdata)
    case Wake(t) => Leave(y, t, y.threads[t].sem - 1)
    case Timeout(t) => Leave(y, t, y.threads[t].sem)
    case DecStep(t) => var k := Place(y.order, t); DecReady(y, t); DecNext(y, t, k)
    case Post(s, evt) => PostStep(y, s, evt)
    case Walk(k) => WalkReady(y, k); Visit(y, k, Target(y, y.handlers[k]))
    case Alloc(s, writable) => AllocStep(y, s, writable)
  }

  /** The end of alloc_socket: the events of a new socket, set without a look at who waits for it. */
  ghost function AllocStep(y: System, s: nat, writable: bool): System
    requires s < |y.socks|
  {
    y.(socks := y.socks[s := y.socks[s].(rcvevent := 0, sendevent := writable, errevent := false)],
       lost := if writable then y.lost + Losers(y, s) else y.lost)
  }

  ghost function Losers(y: System, s: nat): set<(nat, nat)> {
    set t: nat | t < |y.threads| && Loses(y, t, s) :: (t, s)
  }

  /** Thread t waits for socket s to become writable, and nobody is on the way to tell it so. */
  ghost predicate Loses(y: System, t: nat, s: nat) {
    && t < |y.threads| && Watching(y.threads[t], s) && s < |y.threads[t].clear| && y.threads[t].clear[s].write
    && !y.threads[t].signalled && !exists k: nat :: Pending(y, k, t, s, Write)
  }

  function Leave(y: System, t: nat, sem: nat): System
    requires t < |y.threads|
  {
    var th := y.threads[t];
    y.(threads := y.threads[t := th.(phase := Dec(0, |th.watch|), sem := sem)])
  }

  /** Where thread t stands in the list. */
  ghost function Place(order: seq<nat>, t: nat): nat
    requires t in order
  {
    var k :| 0 <= k < |order| && order[k] == t; k
  }

  // ---- the invariant

  function One(b: bool): nat { if b then 1 else 0 }

  ghost function Waiters(ts: seq<Thread>, s: nat): nat {
    if ts == [] then 0 else Waiters(ts[..|ts| - 1], s) + One(Watching(ts[|ts| - 1], s))
  }

  /** The list holds the nodes of exactly the threads inside lwip_select. */
  ghost predicate Listed(y: System) {
    && |y.list.next| == |y.threads| && Represents(y.list, y.order)
    && forall t {:trigger y.threads[t]} :: 0 <= t < |y.threads| ==> (t in y.order <==> !y.threads[t].phase.Out?)
  }

  /** select_waiting counts the threads watching the socket, and has not wrapped around. */
  ghost predicate Counted(y: System) {
    forall s {:trigger y.socks[s]} :: 0 <= s < |y.socks| ==>
      y.socks[s].waiting == Waiters(y.threads, s) && y.socks[s].waiting < SELWAIT_LIMIT
  }

  /** What a thread has counted itself for are sockets that exist. */
  ghost predicate ThreadOk(th: Thread, socks: nat) {
    && |th.clear| == |th.watch|
    && (forall s {:trigger th.clear[s]} :: 0 <= s < |th.watch| ==> Within(th.clear[s], th.watch[s]))
    && (forall s: nat {:trigger th.watch[s]} {:trigger Watching(th, s)} :: s < |th.watch| && Watching(th, s) ==> s < socks)
    && (th.phase.Dec? ==> th.phase.upto <= |th.watch|)
    && (th.phase.Inc? ==> forall s {:trigger th.clear[s]} :: 0 <= s < |th.watch| ==> th.clear[s] == NONE)
    && th.signals == One(th.signalled) && th.sem <= th.signals
    && (th.phase.Inc? || th.phase.Scan? || th.phase.Wait? ==> th.sem == th.signals)
    && (th.phase.Scan? ==> th.phase.i <= |th.watch|)
    && (th.phase.Scan? && !th.phase.found ==> forall s {:trigger th.clear[s]} :: 0 <= s < th.phase.i ==> Within(th.watch[s], th.clear[s]))
    && (th.phase.Wait? ==> forall s {:trigger th.clear[s]} :: 0 <= s < |th.watch| ==> Within(th.watch[s], th.clear[s]))
  }

  /** A handler that has seen the present list stands on a node of it. */
  ghost predicate OnList(y: System, h: Handler) {
    h.Paused? ==> h.last <= y.ctr && (h.last == y.ctr ==> h.at in y.order)
  }

  ghost predicate Behind(order: seq<nat>, a: nat, t: nat) {
    exists i, j :: 0 <= i < j < |order| && order[i] == a && order[j] == t
  }

  /** The handler has still to come to thread t. */
  ghost predicate WillVisit(y: System, h: Handler, t: nat) {
    h.Starting? || (h.Paused? && (h.last != y.ctr || Behind(y.order, h.at, t)))
  }

  /** Handler k carries the news that bit b of socket s is ready and has still to come to thread t. */
  ghost predicate Pending(y: System, k: nat, t: nat, s: nat, b: Bit) {
    && k < |y.handlers| && !y.handlers[k].Finished?
    && y.handlers[k].s == s && Has(y.handlers[k].flags, b) && WillVisit(y, y.handlers[k], t)
  }

  /** Thread t has read bit b of socket s as not ready, but it is ready now. */
  ghost predicate Missed(y: System, t: nat, s: nat, b: Bit) {
    && t < |y.threads| && Watching(y.threads[t], s) && s < |y.socks| && s < |y.threads[t].clear|
    && Has(y.threads[t].clear[s], b) && Has(Ready(y.socks[s]), b)
  }

  /** alloc_socket has made the socket writable behind the thread's back. */
  predicate Excused(y: System, t: nat, s: nat, b: Bit) {
    b.Write? && (t, s) in y.lost
  }

  /** No other wakeup is lost: the thread is signalled, or a handler in flight is on its way to it. */
  ghost predicate NoLostWakeup(y: System) {
    forall t: nat, s: nat, b {:trigger Missed(y, t, s, b)} :: Missed(y, t, s, b) ==>
      y.threads[t].signalled || Excused(y, t, s, b) || exists k: nat :: Pending(y, k, t, s, b)
  }

  ghost predicate Good(y: System) {
    && Listed(y) && Counted(y)
    && (forall t {:trigger y.threads[t]} :: 0 <= t < |y.threads| ==> ThreadOk(y.threads[t], |y.socks|))
    && (forall k {:trigger y.handlers[k]} :: 0 <= k < |y.handlers| ==> OnList(y, y.handlers[k]))
    && NoLostWakeup(y)
  }

  // ---- the list is used only as it is

  lemma BeginReady(y: System)
    requires Listed(y)
    ensures -1 <= y.list.head < |y.list.next| == |y.list.prev|
  {
  }

  lemma DecReady(y: System, t: nat)
    requires Listed(y) && t in y.order
    ensures t < |y.list.next| == |y.list.prev| && -1 <= y.list.next[t] < |y.list.next|
    ensures y.list.head != t ==> 0 <= y.list.prev[t] < |y.list.next|
  {
  }

  /** The walk never leaves the list: the node it stands on and the one it goes to are on it. */
  lemma WalkReady(y: System, k: nat)
    requires Listed(y) && k < |y.handlers| && OnList(y, y.handlers[k])
    ensures var h := y.handlers[k];
            && (h.Paused? && h.last == y.ctr ==> h.at in y.order && h.at < |y.list.next|)
            && (Target(y, h) == -1 || (Target(y, h) >= 0 && Target(y, h) in y.order && Target(y, h) < |y.threads|))
  {
  }
}
