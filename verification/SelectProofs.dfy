/** Every step of the select machine keeps its invariant, so no run loses a wakeup. */
module SelectProofs {
  import opened SelectList
  import opened Select

  // ---- select_waiting

  lemma {:induction false} WaitersUpdate(ts: seq<Thread>, t: nat, th: Thread, s: nat)
    requires t < |ts|
    ensures Waiters(ts[t := th], s) == Waiters(ts, s) - One(Watching(ts[t], s)) + One(Watching(th, s))
  {
    var n := |ts| - 1;
    if t < n {
      assert ts[t := th][..n] == ts[..n][t := th];
      WaitersUpdate(ts[..n], t, th, s);
    } else {
      assert ts[t := th][..n] == ts[..n];
    }
  }

  lemma {:induction false} WaitersPositive(ts: seq<Thread>, t: nat, s: nat)
    requires t < |ts| && Watching(ts[t], s)
    ensures Waiters(ts, s) > 0
  {
    if t < |ts| - 1 {
      assert ts[..|ts| - 1][t] == ts[t];
      WaitersPositive(ts[..|ts| - 1], t, s);
    }
  }

  // ---- steps of a selecting thread

  /** Thread th may become th' (with the counts of the sockets following it). */
  ghost predicate Continues(y: System, th: Thread, th': Thread, socks: seq<Sock>) {
    && th'.phase.Out? == th.phase.Out? && ThreadOk(th', |y.socks|) && (th.signalled ==> th'.signalled)
    && |socks| == |y.socks|
    && (forall s {:trigger socks[s]} :: 0 <= s < |socks| ==>
          && Ready(socks[s]) == Ready(y.socks[s]) && socks[s].waiting < SELWAIT_LIMIT
          && socks[s].waiting == y.socks[s].waiting - One(Watching(th, s)) + One(Watching(th', s)))
    && (forall s: nat, b {:trigger Has(th'.clear[s], b)} ::
          Watching(th', s) && s < |th'.clear| && s < |y.socks| && Has(th'.clear[s], b) && Has(Ready(y.socks[s]), b) ==>
            th'.signalled || (Watching(th, s) && s < |th.clear| && Has(th.clear[s], b)))
  }

  lemma ThreadMoves(y: System, t: nat, th: Thread, socks: seq<Sock>)
    requires Good(y) && t < |y.threads| && Continues(y, y.threads[t], th, socks)
    ensures Good(y.(threads := y.threads[t := th], socks := socks))
  {
    var y' := y.(threads := y.threads[t := th], socks := socks);
    hide ThreadOk, Watching, Represents;
    assert Counted(y') by {
      forall s {:trigger y'.socks[s]} | 0 <= s < |y'.socks| ensures y'.socks[s].waiting == Waiters(y'.threads, s) && y'.socks[s].waiting < SELWAIT_LIMIT {
        WaitersUpdate(y.threads, t, th, s);
      }
    }
    forall u: nat, s: nat, b {:trigger Missed(y', u, s, b)} | Missed(y', u, s, b)
      ensures y'.threads[u].signalled || Excused(y', u, s, b) || exists k: nat :: Pending(y', k, u, s, b)
    {
      if !y'.threads[u].signalled && !Excused(y', u, s, b) {
        assert y'.socks[s] == socks[s];
        assert Has(y'.threads[u].clear[s], b);
        assert Missed(y, u, s, b);
        var k: nat :| Pending(y, k, u, s, b);
        assert Pending(y', k, u, s, b);
      }
    }
  }

  lemma ThreadFacts(y: System, t: nat)
    requires Good(y) && t < |y.threads|
    ensures ThreadOk(y.threads[t], |y.socks|) && CountsFit(y)
  {
  }

  ghost predicate CountsFit(y: System) {
    forall s {:trigger y.socks[s]} :: 0 <= s < |y.socks| ==> y.socks[s].waiting < SELWAIT_LIMIT
  }

  lemma IncContinues(y: System, t: nat, ok: bool)
    requires Enabled(y, IncStep(t, ok)) && ThreadOk(y.threads[t], |y.socks|) && CountsFit(y)
    ensures var y' := IncNext(y, t, ok); Continues(y, y.threads[t], y'.threads[t], y'.socks)
  {
  }

  lemma IncKeeps(y: System, t: nat, ok: bool)
    requires Good(y) && Enabled(y, IncStep(t, ok))
    ensures Good(IncNext(y, t, ok))
  {
    hide Good, Continues;
    var y' := IncNext(y, t, ok);
    ThreadFacts(y, t);
    IncContinues(y, t, ok);
    ThreadMoves(y, t, y'.threads[t], y'.socks);
    assert y' == y.(threads := y.threads[t := y'.threads[t]], socks := y'.socks);
  }

  lemma ScanContinues(y: System, t: nat, ok: bool, lastdata: bool)
    requires Enabled(y, ScanStep(t, ok, lastdata)) && ThreadOk(y.threads[t], |y.socks|) && CountsFit(y)
    ensures var y' := ScanNext(y, t, ok, lastdata); Continues(y, y.threads[t], y'.threads[t], y.socks)
  {
  }

  lemma ScanKeeps(y: System, t: nat, ok: bool, lastdata: bool)
    requires Good(y) && Enabled(y, ScanStep(t, ok, lastdata))
    ensures |y.threads[t].clear| == |y.threads[t].watch| && Good(ScanNext(y, t, ok, lastdata))
  {
    hide Good, Continues;
    ThreadFacts(y, t);
    var y' := ScanNext(y, t, ok, lastdata);
    ScanContinues(y, t, ok, lastdata);
    ThreadMoves(y, t, y'.threads[t], y.socks);
    assert y' == y.(threads := y.threads[t := y'.threads[t]], socks := y.socks);
  }

  lemma LeaveKeeps(y: System, t: nat, sem: nat)
    requires Good(y) && t < |y.threads| && y.threads[t].phase.Wait? && sem <= y.threads[t].sem
    ensures Good(Leave(y, t, sem))
  {
    hide Good;
    var y' := Leave(y, t, sem);
    ThreadFacts(y, t);
    assert Continues(y, y.threads[t], y'.threads[t], y'.socks);
    ThreadMoves(y, t, y'.threads[t], y'.socks);
    assert y' == y.(threads := y.threads[t := y'.threads[t]], socks := y'.socks);
  }

  /** The thread's own count is still in select_waiting when it takes it back. */
  lemma DecCounts(y: System, t: nat, i: nat)
    requires Good(y) && t < |y.threads| && Watching(y.threads[t], i)
    ensures i < |y.socks| && y.socks[i].waiting > 0
  {
    assert ThreadOk(y.threads[t], |y.socks|);
    WaitersPositive(y.threads, t, i);
    assert y.socks[i].waiting == Waiters(y.threads, i);
  }

  lemma DecKeeps(y: System, t: nat, k: nat)
    requires Good(y) && Enabled(y, DecStep(t)) && k < |y.order| && y.order[k] == t
    requires y.threads[t].phase.i < y.threads[t].phase.upto
    requires t < |y.list.next| == |y.list.prev| && -1 <= y.list.next[t] < |y.list.next|
    requires y.list.head != t ==> 0 <= y.list.prev[t] < |y.list.next|
    ensures Good(DecNext(y, t, k))
  {
    hide Good;
    var y' := DecNext(y, t, k);
    ThreadFacts(y, t);
    if Watching(y.threads[t], y.threads[t].phase.i) { DecCounts(y, t, y.threads[t].phase.i); }
    assert Continues(y, y.threads[t], y'.threads[t], y'.socks);
    ThreadMoves(y, t, y'.threads[t], y'.socks);
    assert y' == y.(threads := y.threads[t := y'.threads[t]], socks := y'.socks);
  }

  // ---- the list changes

  /** A thread that watches nothing enters or leaves the list: every handler in flight starts over. */
  lemma ListMoves(y: System, t: nat, th: Thread, list: List, order: seq<nat>, lost: set<(nat, nat)>)
    requires Good(y) && t < |y.threads| && ThreadOk(th, |y.socks|)
    requires forall s: nat {:trigger Watching(th, s)} {:trigger Watching(y.threads[t], s)} ::
               !Watching(th, s) && !Watching(y.threads[t], s)
    requires |list.next| == |y.threads| && Represents(list, order) && (t in order <==> !th.phase.Out?)
    requires forall u :: u != t ==> (u in order <==> u in y.order)
    requires lost == y.lost || lost == Forget(y.lost, t)
    ensures Good(y.(threads := y.threads[t := th], list := list, order := order, ctr := y.ctr + 1, lost := lost))
  {
    var y' := y.(threads := y.threads[t := th], list := list, order := order, ctr := y.ctr + 1, lost := lost);
    hide ThreadOk, Watching, Represents;
    assert Counted(y') by {
      forall s {:trigger y'.socks[s]} | 0 <= s < |y'.socks| ensures y'.socks[s].waiting == Waiters(y'.threads, s) && y'.socks[s].waiting < SELWAIT_LIMIT {
        WaitersUpdate(y.threads, t, th, s);
        assert y.socks[s].waiting == Waiters(y.threads, s);
      }
    }
    forall k {:trigger y'.handlers[k]} | 0 <= k < |y'.handlers| ensures OnList(y', y'.handlers[k]) {
      assert OnList(y, y.handlers[k]);
    }
    forall u: nat, s: nat, b {:trigger Missed(y', u, s, b)} | Missed(y', u, s, b)
      ensures y'.threads[u].signalled || Excused(y', u, s, b) || exists k: nat :: Pending(y', k, u, s, b)
    {
      if !y'.threads[u].signalled && !Excused(y', u, s, b) {
        assert u != t;
        assert Missed(y, u, s, b);
        var k: nat :| Pending(y, k, u, s, b);
        assert OnList(y, y.handlers[k]);
        assert Pending(y', k, u, s, b);
      }
    }
  }

  lemma BeginKeeps(y: System, t: nat, watch: seq<Bits>)
    requires Good(y) && Enabled(y, Begin(t, watch)) && -1 <= y.list.head < |y.list.next| == |y.list.prev|
    ensures Good(BeginStep(y, t, watch))
  {
    hide Represents, NoLostWakeup, Counted, Link;
    var th := BeginStep(y, t, watch).threads[t];
    LinkKeeps(y.list, y.order, t);
    assert |Link(y.list, t).next| == |y.threads| by { LinkLength(y.list, t); }
    ListMoves(y, t, th, Link(y.list, t), [t] + y.order, Forget(y.lost, t));
  }

  lemma LinkLength(l: List, t: nat)
    requires t < |l.next| == |l.prev| && -1 <= l.head < |l.next|
    ensures |Link(l, t).next| == |l.next|
  {
  }

  lemma UnlinkLength(l: List, t: nat)
    requires t < |l.next| == |l.prev| && -1 <= l.next[t] < |l.next|
    requires l.head != t ==> 0 <= l.prev[t] < |l.next|
    ensures |Unlink(l, t).next| == |l.next|
  {
  }

  lemma EndKeeps(y: System, t: nat, k: nat)
    requires Good(y) && Enabled(y, DecStep(t)) && k < |y.order| && y.order[k] == t
    requires y.threads[t].phase.i >= y.threads[t].phase.upto
    requires t < |y.list.next| == |y.list.prev| && -1 <= y.list.next[t] < |y.list.next|
    requires y.list.head != t ==> 0 <= y.list.prev[t] < |y.list.next|
    ensures Good(DecNext(y, t, k))
  {
    hide NoLostWakeup, Counted, Unlink;
    var order := y.order[..k] + y.order[k + 1..];
    UnlinkKeeps(y.list, y.order, k);
    UnlinkLength(y.list, t);
    DistinctWithout(y.order, k);
    assert ThreadOk(y.threads[t], |y.socks|);
    ListMoves(y, t, y.threads[t].(phase := Out), Unlink(y.list, t), order, y.lost);
  }

  // ---- event_callback

  /** The node a handler goes to next is thread t's own, or one in front of it. */
  lemma VisitApproaches(y: System, h: Handler, t: nat)
    requires Listed(y) && OnList(y, h) && t in y.order && WillVisit(y, h, t)
    requires h.Paused? && h.last == y.ctr ==> h.at < |y.list.next|
    ensures Target(y, h) >= 0 && (t == Target(y, h) || Behind(y.order, Target(y, h), t))
  {
  }

  lemma SignalKeeps(y: System, t: nat, s: nat, flags: Bits)
    requires Good(y) && t < |y.threads|
    ensures Good(y.(threads := y.threads[t := Signal(y.threads[t], s, flags)]))
  {
    hide Good;
    ThreadFacts(y, t);
    var th' := Signal(y.threads[t], s, flags);
    assert Continues(y, y.threads[t], th', y.socks);
    ThreadMoves(y, t, th', y.socks);
    assert y.(threads := y.threads[t := th'], socks := y.socks) == y.(threads := y.threads[t := th']);
  }

  lemma VisitKeeps(y: System, k: nat)
    requires Good(y) && k < |y.handlers| && !y.handlers[k].Finished?
    ensures var h := y.handlers[k];
            && (h.Paused? && h.last == y.ctr ==> h.at < |y.list.next|) && Target(y, h) < |y.threads|
            && Good(Visit(y, k, Target(y, h)))
  {
    WalkReady(y, k);
    var h := y.handlers[k];
    var node := Target(y, h);
    if node < 0 {
      HandlerMoves(y, y, k, Finished, node);
    } else {
      var y1 := y.(threads := y.threads[node := Signal(y.threads[node], h.s, h.flags)]);
      SignalKeeps(y, node, h.s, h.flags);
      HandlerMoves(y, y1, k, Paused(h.s, h.flags, node, y.ctr), node);
    }
  }

  /** A node is signalled for every bit its thread has read as not ready. */
  lemma SignalReaches(th: Thread, socks: nat, s: nat, b: Bit, flags: Bits)
    requires ThreadOk(th, socks) && s < |th.clear| && Has(th.clear[s], b) && Has(flags, b)
    ensures Signal(th, s, flags).signalled
  {
  }

  /** Once the node it went to has been signalled, the handler may forget about it. */
  lemma HandlerMoves(y: System, y1: System, k: nat, h': Handler, node: int)
    requires Good(y) && Good(y1) && k < |y.handlers| && !y.handlers[k].Finished?
    requires y1.handlers == y.handlers && y1.order == y.order && y1.ctr == y.ctr && y1.list == y.list
    requires y.handlers[k].Paused? && y.handlers[k].last == y.ctr ==> y.handlers[k].at < |y.list.next|
    requires node == Target(y, y.handlers[k]) < |y.threads| && (node < 0 || node in y.order)
    requires h' == if node < 0 then Finished else Paused(y.handlers[k].s, y.handlers[k].flags, node, y.ctr)
    requires |y1.threads| == |y.threads|
    requires node >= 0 ==> y1.threads[node] == Signal(y.threads[node], y.handlers[k].s, y.handlers[k].flags)
    ensures Good(y1.(handlers := y1.handlers[k := h']))
  {
    hide Represents;
    var y' := y1.(handlers := y1.handlers[k := h']);
    forall i {:trigger y'.handlers[i]} | 0 <= i < |y'.handlers| ensures OnList(y', y'.handlers[i]) {
      assert OnList(y1, y1.handlers[i]);
    }
    assert Counted(y');
    forall t: nat, s: nat, b {:trigger Missed(y', t, s, b)} | Missed(y', t, s, b)
      ensures y'.threads[t].signalled || Excused(y', t, s, b) || exists i: nat :: Pending(y', i, t, s, b)
    {
      assert Missed(y1, t, s, b);
      if t == node && y.handlers[k].s == s && Has(y.handlers[k].flags, b) {
        SignalReaches(y.threads[t], |y.socks|, s, b, y.handlers[k].flags);
      }
      if !y1.threads[t].signalled && !Excused(y1, t, s, b) {
        var i: nat :| Pending(y1, i, t, s, b);
        if i == k {
          assert t in y1.order;
          VisitApproaches(y1, y1.handlers[k], t);
        }
        assert Pending(y', i, t, s, b);
      }
    }
  }

  /** A bit that an event turns ready makes event_callback check the waiters. */
  lemma TurnsReady(k: Sock, evt: Evt, b: Bit)
    requires !Has(Ready(k), b) && Has(Ready(Update(k, evt).0), b)
    ensures Update(k, evt).1
  {
  }

  lemma PostKeeps(y: System, s: nat, evt: Evt)
    requires Good(y) && s < |y.socks|
    ensures Good(PostStep(y, s, evt))
  {
    hide Represents, ThreadOk, Watching;
    var y' := PostStep(y, s, evt);
    assert y'.socks[s].waiting == y.socks[s].waiting;
    forall i {:trigger y'.handlers[i]} | 0 <= i < |y'.handlers| ensures OnList(y', y'.handlers[i]) {
      if i < |y.handlers| { assert OnList(y, y.handlers[i]); }
    }
    forall t: nat, r: nat, b {:trigger Missed(y', t, r, b)} | Missed(y', t, r, b)
      ensures y'.threads[t].signalled || Excused(y', t, r, b) || exists i: nat :: Pending(y', i, t, r, b)
    {
      if Has(Ready(y.socks[r]), b) {
        assert Missed(y, t, r, b);
        if !y.threads[t].signalled && !Excused(y, t, r, b) {
          var i: nat :| Pending(y, i, t, r, b);
          assert Pending(y', i, t, r, b);
        }
      } else {
        TurnsReady(y.socks[s], evt, b);
        WaitersPositive(y.threads, t, s);
        assert Pending(y', |y.handlers|, t, r, b);
      }
    }
  }

  lemma AllocKeeps(y: System, s: nat, writable: bool)
    requires Good(y) && Enabled(y, Alloc(s, writable))
    ensures Good(Next(y, Alloc(s, writable)))
  {
    hide Represents, ThreadOk, Watching;
    var y' := Next(y, Alloc(s, writable));
    forall i {:trigger y'.handlers[i]} | 0 <= i < |y'.handlers| ensures OnList(y', y'.handlers[i]) {
      assert OnList(y, y.handlers[i]);
    }
    forall t: nat, r: nat, b {:trigger Missed(y', t, r, b)} | Missed(y', t, r, b)
      ensures y'.threads[t].signalled || Excused(y', t, r, b) || exists i: nat :: Pending(y', i, t, r, b)
    {
      if !y'.threads[t].signalled && !Excused(y', t, r, b) {
        if r == s {
          assert Loses(y, t, s) ==> (t, s) in Losers(y, s);
        } else {
          assert Missed(y, t, r, b);
        }
        var i: nat :| Pending(y, i, t, r, b);
        assert Pending(y', i, t, r, b);
      }
    }
  }

  lemma DecStepKeeps(y: System, t: nat)
    requires Good(y) && Enabled(y, DecStep(t))
    ensures Good(Next(y, DecStep(t)))
  {
    hide NoLostWakeup, Counted, Represents, ThreadOk;
    assert t in y.order;
    DecReady(y, t);
    if y.threads[t].phase.i < y.threads[t].phase.upto {
      DecKeeps(y, t, Place(y.order, t));
    } else {
      EndKeeps(y, t, Place(y.order, t));
    }
  }

  /** Every step keeps the invariant. */
  lemma NextKeeps(y: System, e: Event)
    requires Good(y) && Enabled(y, e)
    ensures Good(Next(y, e))
  {
    hide NoLostWakeup, Counted, Represents, ThreadOk;
    match e
    case Begin(t, watch) => BeginReady(y); BeginKeeps(y, t, watch);
    case IncStep(t, ok) => IncKeeps(y, t, ok);
    case ScanStep(t, ok, lastdata) => ScanKeeps(y, t, ok, lastdata);
    case Wake(t) => LeaveKeeps(y, t, y.threads[t].sem - 1);
    case Timeout(t) => LeaveKeeps(y, t, y.threads[t].sem);
    case DecStep(t) => DecStepKeeps(y, t);
    case Post(s, evt) => PostKeeps(y, s, evt);
    case Walk(k) => VisitKeeps(y, k);
    case Alloc(s, writable) => AllocKeeps(y, s, writable);
  }

  // ---- runs

  /** Before the first select call: nobody waits and no handler is in flight. */
  ghost predicate Initial(y: System) {
    && y.list.head == -1 && y.order == [] && y.handlers == [] && y.lost == {} && |y.list.next| == |y.list.prev| == |y.threads|
    && (forall t {:trigger y.threads[t]} :: 0 <= t < |y.threads| ==> y.threads[t] == Thread(Out, [], [], false, 0, 0))
    && (forall s {:trigger y.socks[s]} :: 0 <= s < |y.socks| ==> y.socks[s].waiting == 0)
  }

  lemma {:induction false} NobodyWaits(ts: seq<Thread>, s: nat)
    requires forall t {:trigger ts[t]} :: 0 <= t < |ts| ==> ts[t].phase.Out?
    ensures Waiters(ts, s) == 0
  {
    if ts != [] { NobodyWaits(ts[..|ts| - 1], s); }
  }

  lemma InitialGood(y: System)
    requires Initial(y)
    ensures Good(y)
  {
    forall s {:trigger y.socks[s]} | 0 <= s < |y.socks| ensures y.socks[s].waiting == Waiters(y.threads, s) && y.socks[s].waiting < SELWAIT_LIMIT {
      NobodyWaits(y.threads, s);
    }
  }

  ghost predicate Moves(y: System, e: Event, y': System) {
    Good(y) ==> Enabled(y, e) && y' == Next(y, e)
  }

  ghost predicate IsTrace(ys: seq<System>, es: seq<Event>) {
    && |ys| == |es| + 1 && Initial(ys[0])
    && forall i {:trigger es[i]} :: 0 <= i < |es| ==> Moves(ys[i], es[i], ys[i + 1])
  }

  lemma {:induction false} TraceGood(ys: seq<System>, es: seq<Event>, i: nat)
    requires IsTrace(ys, es) && i <= |es|
    ensures Good(ys[i])
  {
    hide Next, Good;
    if i == 0 {
      InitialGood(ys[0]);
    } else {
      TraceGood(ys, es, i - 1);
      assert Moves(ys[i - 1], es[i - 1], ys[i]);
      NextKeeps(ys[i - 1], es[i - 1]);
    }
  }

  /** In every interleaving: when a bit that a thread's second scan read as not ready has become
      ready, the thread is signalled already or a handler in flight has still to come to it, unless
      alloc_socket has made the socket writable behind its back; and a thread signalled while it
      waits, or before, finds its semaphore raised and can go on. */
  lemma NoTraceLosesWakeup(ys: seq<System>, es: seq<Event>, i: nat, t: nat, s: nat, b: Bit)
    requires IsTrace(ys, es) && i <= |es| && Missed(ys[i], t, s, b)
    ensures ys[i].threads[t].signalled || (exists k: nat :: Pending(ys[i], k, t, s, b)) || (b.Write? && (t, s) in ys[i].lost)
    ensures ys[i].threads[t].signalled && !ys[i].threads[t].phase.Dec? ==> ys[i].threads[t].sem == 1
    ensures ys[i].threads[t].signalled && ys[i].threads[t].phase.Wait? ==> Enabled(ys[i], Wake(t))
  {
    TraceGood(ys, es, i);
    ThreadFacts(ys[i], t);
  }

  /** The step is alloc_socket making s writable while t waits for that and nobody is on the way to tell it. */
  ghost predicate Overlooks(y: System, e: Event, t: nat, s: nat) {
    e == Alloc(s, true) && Loses(y, t, s)
  }

  /** What alloc_socket overlooks is lost then and there, and nothing else is. */
  lemma AllocLoses(y: System, s: nat, writable: bool, t: nat, r: nat, b: Bit)
    requires Good(y) && Enabled(y, Alloc(s, writable))
    ensures var y' := Next(y, Alloc(s, writable));
            Forsaken(y', t, r, b) <==> (r != s && Forsaken(y, t, r, b)) || (r == s && b.Write? && Overlooks(y, Alloc(s, writable), t, s))
  {
    hide Good;
    var y' := Next(y, Alloc(s, writable));
    forall k: nat ensures Pending(y', k, t, r, b) == Pending(y, k, t, r, b) {}
  }

  /** The bit is ready, thread t has read it as not ready, and nobody has told it or is on the way to. */
  ghost predicate Forsaken(y: System, t: nat, s: nat, b: Bit) {
    Missed(y, t, s, b) && !y.threads[t].signalled && !exists k: nat :: Pending(y, k, t, s, b)
  }

  lemma LostStep(y: System, e: Event, t: nat, s: nat)
    requires Good(y) && Enabled(y, e)
    ensures (t, s) in Next(y, e).lost <==> Overlooks(y, e, t, s) || ((t, s) in y.lost && !(e.Begin? && e.t == t))
  {
    hide Represents, ThreadOk, NoLostWakeup, Counted, Pending;
    match e
    case Begin(_, _) => BeginReady(y);
    case Alloc(r, writable) =>
      if writable { assert (t, s) in Losers(y, r) <==> r == s && Loses(y, t, s); }
    case DecStep(u) => DecReady(y, u);
    case Walk(k) => WalkReady(y, k);
    case _ =>
  }

  /** Over every run, a thread's wakeup for socket s counts as lost exactly if alloc_socket made s writable, with
      the thread overlooked, during its present call. */
  lemma {:induction false} LostWakeupIff(ys: seq<System>, es: seq<Event>, i: nat, t: nat, s: nat)
    requires IsTrace(ys, es) && i <= |es|
    ensures (t, s) in ys[i].lost <==> exists k {:trigger es[k]} :: 0 <= k < i && Overlooks(ys[k], es[k], t, s) && SameCall(es, k, i, t)
  {
    hide Next, Good, Overlooks;
    if i > 0 {
      LostWakeupIff(ys, es, i - 1, t, s);
      TraceGood(ys, es, i - 1);
      assert Moves(ys[i - 1], es[i - 1], ys[i]);
      LostStep(ys[i - 1], es[i - 1], t, s);
      if k :| 0 <= k < i - 1 && Overlooks(ys[k], es[k], t, s) && SameCall(es, k, i - 1, t) {
        assert es[k] == es[k];
        assert !(es[i - 1].Begin? && es[i - 1].t == t) ==> SameCall(es, k, i, t);
      }
    }
  }

  /** Thread t does not begin another call between steps k and i. */
  ghost predicate SameCall(es: seq<Event>, k: nat, i: nat, t: nat)
    requires i <= |es|
  {
    forall m {:trigger es[m]} :: k < m < i ==> !(es[m].Begin? && es[m].t == t)
  }

  /** The assertions that select_waiting is positive when a thread takes its count back hold,
      a handler stands on the list it walks, and no select call is signalled twice. */
  lemma TraceAssertions(ys: seq<System>, es: seq<Event>, i: nat)
    requires IsTrace(ys, es) && i <= |es|
    ensures forall t: nat, s: nat {:trigger Watching(ys[i].threads[t], s)} ::
              t < |ys[i].threads| && Watching(ys[i].threads[t], s) ==> s < |ys[i].socks| && 0 < ys[i].socks[s].waiting < SELWAIT_LIMIT
    ensures forall k {:trigger ys[i].handlers[k]} :: 0 <= k < |ys[i].handlers| ==>
              var h := ys[i].handlers[k]; h.Paused? && h.last == ys[i].ctr ==> h.at in ys[i].order
    ensures forall t {:trigger ys[i].threads[t]} :: 0 <= t < |ys[i].threads| ==> ys[i].threads[t].signals <= 1
  {
    TraceGood(ys, es, i);
    var y := ys[i];
    forall t: nat, s: nat {:trigger Watching(y.threads[t], s)} | t < |y.threads| && Watching(y.threads[t], s)
      ensures s < |y.socks| && 0 < y.socks[s].waiting < SELWAIT_LIMIT
    {
      DecCounts(y, t, s);
    }
    forall k {:trigger y.handlers[k]} | 0 <= k < |y.handlers|
      ensures y.handlers[k].Paused? && y.handlers[k].last == y.ctr ==> y.handlers[k].at in y.order
    {
      assert OnList(y, y.handlers[k]);
    }
    forall t {:trigger y.threads[t]} | 0 <= t < |y.threads| ensures y.threads[t].signals <= 1 {
      ThreadFacts(y, t);
    }
  }

  // ---- a handler on its way does arrive

  /** Handler k alone takes n steps. */
  ghost function WalkOn(y: System, k: nat, n: nat): System
    requires Good(y) && k < |y.handlers|
    decreases n
  {
    if n == 0 || y.handlers[k].Finished? then y
    else NextKeeps(y, Walk(k)); WalkOn(Next(y, Walk(k)), k, n - 1)
  }

  /** How many nodes the handler has still in front of it. */
  ghost function Ahead(y: System, h: Handler): nat {
    if h.Paused? && h.last == y.ctr && h.at in y.order then |y.order| - Place(y.order, h.at) - 1 else |y.order|
  }

  /** One step brings it to the thread or closer to it. */
  lemma StepCloser(y: System, k: nat, t: nat, s: nat, b: Bit)
    requires Good(y) && Missed(y, t, s, b) && Pending(y, k, t, s, b)
    ensures var y' := Next(y, Walk(k));
            && Good(y') && |y'.handlers| == |y.handlers| && y'.order == y.order && t < |y'.threads| && Ahead(y, y.handlers[k]) > 0
            && (y'.threads[t].signalled ||
                (Missed(y', t, s, b) && Pending(y', k, t, s, b) && Ahead(y', y'.handlers[k]) < Ahead(y, y.handlers[k])))
  {
    hide Represents, Counted, NoLostWakeup;
    NextKeeps(y, Walk(k));
    WalkReady(y, k);
    var h := y.handlers[k];
    assert t in y.order;
    VisitApproaches(y, h, t);
    TargetCloser(y, h);
    ThreadFacts(y, t);
    if t == Target(y, h) {
      SignalReaches(y.threads[t], |y.socks|, s, b, h.flags);
    }
  }

  lemma TargetCloser(y: System, h: Handler)
    requires Listed(y) && OnList(y, h) && !h.Finished?
    requires h.Paused? && h.last == y.ctr ==> h.at < |y.list.next|
    requires Target(y, h) >= 0
    ensures Target(y, h) in y.order && |y.order| - Place(y.order, Target(y, h)) - 1 < Ahead(y, h)
  {
  }

  /** Left alone, a handler that has still to come to a thread signals it after
      at most as many steps as there are nodes on the list. */
  lemma {:induction false} HandlerDelivers(y: System, k: nat, t: nat, s: nat, b: Bit) returns (n: nat)
    requires Good(y) && Missed(y, t, s, b) && Pending(y, k, t, s, b)
    ensures n <= |y.order| && t < |WalkOn(y, k, n).threads| && WalkOn(y, k, n).threads[t].signalled
    ensures n <= Ahead(y, y.handlers[k])
    decreases Ahead(y, y.handlers[k])
  {
    hide Good, Next, Missed;
    StepCloser(y, k, t, s, b);
    var y' := Next(y, Walk(k));
    if y'.threads[t].signalled {
      n := 1;
      assert WalkOn(y', k, 0) == y';
    } else {
      var m := HandlerDelivers(y', k, t, s, b);
      n := m + 1;
    }
  }
}
