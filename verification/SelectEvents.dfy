/** What select owes to the events themselves: what the event fields count, who is woken by an event, who waits, and why. */
module SelectEvents {
  import opened SelectList
  import opened Select
  import opened SelectProofs

  // ---- the event fields

  /** The step behind the last alloc_socket of s before step i; 0 if there was none. */
  function Since(es: seq<Event>, s: nat, i: nat): (k: nat)
    requires i <= |es|
    ensures k <= i
    decreases i
  {
    if i == 0 then 0 else if es[i - 1].Alloc? && es[i - 1].s == s then i else Since(es, s, i - 1)
  }

  /** How many events of this kind came to s in the steps from k to i. */
  function Posted(es: seq<Event>, s: nat, evt: Evt, k: nat, i: nat): nat
    requires k <= i <= |es|
    decreases i
  {
    if i == k then 0 else Posted(es, s, evt, k, i - 1) + One(es[i - 1] == Post(s, evt))
  }

  /** The last SENDPLUS or SENDMINUS of s in the steps from k to i, and whether it was a SENDPLUS; else `otherwise`. */
  function LastSend(es: seq<Event>, s: nat, k: nat, i: nat, otherwise: bool): bool
    requires k <= i <= |es|
    decreases i
  {
    if i == k then otherwise
    else if es[i - 1] == Post(s, SendPlus) then true
    else if es[i - 1] == Post(s, SendMinus) then false
    else LastSend(es, s, k, i - 1, otherwise)
  }

  /** Steps that are no event and no opening of the socket leave its event fields alone. */
  lemma FieldsStay(y: System, e: Event, s: nat)
    requires Good(y) && Enabled(y, e) && s < |y.socks| && !(e.Post? && e.s == s) && !(e.Alloc? && e.s == s)
    ensures var y' := Next(y, e);
            |y'.socks| == |y.socks| && y'.socks[s].rcvevent == y.socks[s].rcvevent && y'.socks[s].sendevent == y.socks[s].sendevent &&
            y'.socks[s].errevent == y.socks[s].errevent
  {
    hide Represents, NoLostWakeup, Counted, ThreadOk, Losers, Link, Unlink, Update;
    match e
    case Begin(_, _) => BeginReady(y);
    case ScanStep(t, _, _) => ThreadFacts(y, t);
    case DecStep(t) => DecReady(y, t);
    case Walk(k) => WalkReady(y, k);
    case _ =>
  }

  lemma FieldsPosted(y: System, s: nat, evt: Evt)
    requires s < |y.socks|
    ensures var k, k' := y.socks[s], PostStep(y, s, evt).socks[s];
            && k'.rcvevent == k.rcvevent + One(evt.RcvPlus?) - One(evt.RcvMinus?)
            && k'.sendevent == (if evt.SendPlus? then true else if evt.SendMinus? then false else k.sendevent)
            && k'.errevent == (k.errevent || evt.Error?) && k'.waiting == k.waiting
  {
  }

  /** In every interleaving: rcvevent is the number of receive events that came and were not taken back since the socket
      was opened; sendevent is what the last event or the opening made it; errevent says whether an error came since. */
  lemma {:induction false} FieldsCount(ys: seq<System>, es: seq<Event>, i: nat, s: nat)
    requires IsTrace(ys, es) && i <= |es| && s < |ys[0].socks|
    ensures |ys[i].socks| == |ys[0].socks|
    ensures var k, now, first := Since(es, s, i), ys[i].socks[s], ys[0].socks[s];
            && now.rcvevent == (if k == 0 then first.rcvevent else 0) + Posted(es, s, RcvPlus, k, i) - Posted(es, s, RcvMinus, k, i)
            && now.sendevent == LastSend(es, s, k, i, if k == 0 then first.sendevent else es[k - 1].Alloc? && es[k - 1].writable)
            && (now.errevent <==> Posted(es, s, Error, k, i) > 0 || (k == 0 && first.errevent))
  {
    hide Next, Good, PostStep;
    if i > 0 {
      FieldsCount(ys, es, i - 1, s);
      var y, e := ys[i - 1], es[i - 1];
      TraceGood(ys, es, i - 1);
      assert Moves(y, e, ys[i]);
      if e.Alloc? && e.s == s {
        AllocFields(y, s, e.writable);
      } else if e.Post? && e.s == s {
        FieldsPosted(y, s, e.evt);
        PostIs(y, s, e.evt);
      } else {
        FieldsStay(y, e, s);
      }
    }
  }

  lemma PostIs(y: System, s: nat, evt: Evt)
    requires Good(y) && s < |y.socks|
    ensures Next(y, Post(s, evt)) == PostStep(y, s, evt) && |PostStep(y, s, evt).socks| == |y.socks|
  {
  }

  lemma AllocFields(y: System, s: nat, writable: bool)
    requires Good(y) && s < |y.socks|
    ensures var y' := Next(y, Alloc(s, writable));
            |y'.socks| == |y.socks| && y'.socks[s] == Sock(0, writable, false, y.socks[s].waiting)
  {
    hide Good, Losers;
  }

  // ---- events and waiting threads

  /** The event makes bit b ready, or repeats an error. */
  predicate Raises(k: Sock, evt: Evt, b: Bit) {
    match evt
    case RcvPlus => b.Read? && k.rcvevent == 0
    case SendPlus => b.Write? && !k.sendevent
    case Error => b.Except?
    case _ => false
  }

  /** After the first receive event, after a SENDPLUS on a socket that was not writable, and after every error, a handler
      is on its way to every thread that counts in the socket. */
  lemma EventReaches(ys: seq<System>, es: seq<Event>, i: nat, t: nat, s: nat, b: Bit)
    requires IsTrace(ys, es) && i < |es| && es[i].Post? && es[i].s == s && t < |ys[i].threads| && Watching(ys[i].threads[t], s)
    requires s < |ys[i].socks| && Raises(ys[i].socks[s], es[i].evt, b)
    ensures var y' := ys[i + 1]; exists k: nat :: Pending(y', k, t, s, b)
  {
    TraceGood(ys, es, i);
    assert Moves(ys[i], es[i], ys[i + 1]);
    hide Represents, NoLostWakeup, ThreadOk;
    WaitersPositive(ys[i].threads, t, s);
    assert ys[i].socks[s].waiting == Waiters(ys[i].threads, s);
    assert Pending(ys[i + 1], |ys[i].handlers|, t, s, b);
  }

  /** The event is news: the socket was not readable, or not writable, or there is an error. */
  predicate News(k: Sock, evt: Evt) {
    (evt.RcvPlus? && !(k.rcvevent > 0)) || (evt.SendPlus? && !k.sendevent) || evt.Error?
  }

  /** In every interleaving: an event starts a handler exactly if it is news and somebody counts in the socket; with all that
      is ready then. */
  lemma HandlerStartsIff(ys: seq<System>, es: seq<Event>, i: nat, s: nat)
    requires IsTrace(ys, es) && i < |es| && es[i].Post? && es[i].s == s && s < |ys[i].socks|
    ensures s < |ys[i + 1].socks|
    ensures ys[i + 1].handlers == if ys[i].socks[s].waiting > 0 && News(ys[i].socks[s], es[i].evt)
                                  then ys[i].handlers + [Starting(s, Ready(ys[i + 1].socks[s]))] else ys[i].handlers
  {
    TraceGood(ys, es, i);
    assert Moves(ys[i], es[i], ys[i + 1]);
    hide Good, Next, IsTrace;
    PostIs(ys[i], s, es[i].evt);
  }

  /** In every interleaving: a thread that waits for a condition that is ready has been signalled and can go on, or a
      handler has still to come to it, or alloc_socket has made the socket writable behind its back. */
  lemma WaiterTold(ys: seq<System>, es: seq<Event>, i: nat, t: nat, s: nat, b: Bit)
    requires IsTrace(ys, es) && i <= |es| && t < |ys[i].threads| && ys[i].threads[t].phase.Wait?
    requires s < |ys[i].threads[t].watch| && Has(ys[i].threads[t].watch[s], b) && s < |ys[i].socks| && Has(Ready(ys[i].socks[s]), b)
    ensures || (ys[i].threads[t].signalled && Enabled(ys[i], Wake(t))) || (exists k: nat :: Pending(ys[i], k, t, s, b))
            || (b.Write? && (t, s) in ys[i].lost)
  {
    TraceGood(ys, es, i);
    ThreadFacts(ys[i], t);
    assert Missed(ys[i], t, s, b);
    NoTraceLosesWakeup(ys, es, i, t, s, b);
  }

  // ---- who waits

  /** The step is thread t's successful look at socket s in its second scan. */
  ghost predicate LooksAt(y: System, e: Event, t: nat, s: nat) {
    && e.ScanStep? && e.t == t && e.ok && t < |y.threads| && y.threads[t].phase.Scan? && y.threads[t].phase.i == s
    && s < |y.threads[t].watch| && Any(y.threads[t].watch[s]) && s < |y.socks|
  }

  ghost predicate Looks(y: System, e: Event, t: nat) {
    exists s: nat :: LooksAt(y, e, t, s)
  }

  /** It finds a condition ready that the thread watches: data left over counts as readable. */
  ghost predicate FindsReady(y: System, e: Event, t: nat, s: nat) {
    && LooksAt(y, e, t, s)
    && var w, k := y.threads[t].watch[s], y.socks[s];
       (w.read && (e.lastdata || k.rcvevent > 0)) || (w.write && k.sendevent) || (w.except && k.errevent)
  }

  /** In its present call thread t has looked at socket s, in step k. */
  ghost predicate Looked(ys: seq<System>, es: seq<Event>, i: nat, t: nat, s: nat, k: nat)
    requires i <= |es| < |ys|
  {
    k < i && LooksAt(ys[k], es[k], t, s) && SameCall(es, k, i, t)
  }

  /** ... and found something. */
  ghost predicate Found(ys: seq<System>, es: seq<Event>, i: nat, t: nat, s: nat, k: nat)
    requires i <= |es| < |ys|
  {
    Looked(ys, es, i, t, s, k) && FindsReady(ys[k], es[k], t, s)
  }

  /** What a thread knows while it scans and waits. */
  ghost predicate Knows(ys: seq<System>, es: seq<Event>, i: nat, t: nat)
    requires i <= |es| < |ys|
  {
    t < |ys[i].threads| &&
    var th := ys[i].threads[t];
    && (th.phase.Inc? ==> forall s: nat, k: nat :: !Looked(ys, es, i, t, s, k))
    && (th.phase.Scan? ==> (th.phase.found <==> exists s: nat, k: nat :: Found(ys, es, i, t, s, k)))
    && (th.phase.Wait? ==> forall s: nat, k: nat :: !Found(ys, es, i, t, s, k))
    && (th.phase.Scan? || th.phase.Wait? ==>
          forall s {:trigger th.watch[s]} :: 0 <= s < |th.watch| && (th.phase.Scan? ==> s < th.phase.i) && Any(th.watch[s]) ==>
            exists k: nat :: Looked(ys, es, i, t, s, k))
  }

  /** The step is one of thread t's own, other than a walk over the list. */
  predicate Own(e: Event, t: nat) {
    (e.Begin? || e.IncStep? || e.ScanStep? || e.Wake? || e.Timeout? || e.DecStep?) && e.t == t
  }

  lemma OthersStay(y: System, e: Event, t: nat)
    requires Good(y) && Enabled(y, e) && t < |y.threads| && !Own(e, t)
    ensures var y' := Next(y, e); |y'.threads| == |y.threads| && y'.threads[t].phase == y.threads[t].phase && y'.threads[t].watch == y.threads[t].watch
  {
    hide Represents, NoLostWakeup, Counted, ThreadOk, Losers, Link, Unlink, Update;
    match e
    case Begin(_, _) => BeginReady(y);
    case ScanStep(u, _, _) => ThreadFacts(y, u);
    case DecStep(u) => DecReady(y, u);
    case Walk(k) => WalkReady(y, k);
    case _ =>
  }

  /** Where counting the sockets leads: on to the next one, or to the second scan; and back if a watched socket cannot be used,
      or 255 threads are counted in it already. */
  function Counting(y: System, th: Thread, ok: bool): Phase
    requires th.phase.Inc?
  {
    var i := th.phase.i;
    if i >= |th.watch| then Scan(0, false)
    else if Any(th.watch[i]) && (!ok || i >= |y.socks| || y.socks[i].waiting >= 255) then Dec(0, i)
    else Inc(i + 1)
  }

  /** What thread t's own steps do to its phase. */
  lemma OwnMoves(y: System, e: Event, t: nat)
    requires Good(y) && Enabled(y, e) && t < |y.threads| && Own(e, t)
    ensures var th, y' := y.threads[t], Next(y, e);
            && |y'.threads| == |y.threads|
            && var th' := y'.threads[t];
               && (e.Begin? ==> th'.phase == Inc(0) && th'.watch == e.watch)
               && (!e.Begin? ==> th'.watch == th.watch)
               && (e.IncStep? ==> th'.phase == Counting(y, th, e.ok))
               && (e.Wake? || e.Timeout? ==> th'.phase == Dec(0, |th.watch|) && th'.sem + (if e.Wake? then 1 else 0) == th.sem)
               && (e.DecStep? ==> th'.phase == if th.phase.i >= th.phase.upto then Out else Dec(th.phase.i + 1, th.phase.upto))
  {
    hide Represents, NoLostWakeup, Counted, ThreadOk, Losers, Link, Unlink;
    match e
    case Begin(_, _) => BeginReady(y);
    case ScanStep(u, _, _) => ThreadFacts(y, u);
    case DecStep(u) => DecReady(y, u);
    case _ =>
  }

  /** What a step of the second scan does. */
  lemma ScanMoves(y: System, e: Event, t: nat)
    requires Good(y) && Enabled(y, e) && e.ScanStep? && e.t == t
    ensures var th, th' := y.threads[t], Next(y, e).threads[t];
            var i := th.phase.i;
            && (i >= |th.watch| ==> th'.phase == if th.phase.found then Dec(0, |th.watch|) else Wait)
            && th'.watch == th.watch
            && (i < |th.watch| ==> th'.phase == Dec(0, |th.watch|) || (th'.phase.Scan? && th'.phase.i == i + 1))
            && (i < |th.watch| ==> (th'.phase.Scan? <==> !Any(th.watch[i]) || LooksAt(y, e, t, i)))
            && (i < |th.watch| && th'.phase.Scan? ==> (th'.phase.found <==> th.phase.found || FindsReady(y, e, t, i)))
  {
    ThreadFacts(y, t);
    hide Represents, NoLostWakeup, Counted, ThreadOk, Losers, Good;
  }

  lemma SameCallStep(es: seq<Event>, k: nat, i: nat, t: nat)
    requires 0 < i <= |es| && k < i
    ensures SameCall(es, k, i, t) <==> k == i - 1 || (SameCall(es, k, i - 1, t) && !(es[i - 1].Begin? && es[i - 1].t == t))
  {
  }

  /** One more step: what was looked at before, and the look of this step. */
  lemma LookedStep(ys: seq<System>, es: seq<Event>, i: nat, t: nat, s: nat, k: nat)
    requires 0 < i <= |es| < |ys|
    ensures Looked(ys, es, i, t, s, k) <==>
              if k == i - 1 then LooksAt(ys[k], es[k], t, s) else Looked(ys, es, i - 1, t, s, k) && !(es[i - 1].Begin? && es[i - 1].t == t)
  {
    hide LooksAt, SameCall;
    if k < i { SameCallStep(es, k, i, t); }
  }

  lemma {:induction false} TraceKnows(ys: seq<System>, es: seq<Event>, i: nat, t: nat)
    requires IsTrace(ys, es) && i <= |es| && t < |ys[0].threads|
    ensures Knows(ys, es, i, t)
  {
    if i > 0 {
      hide Next, Good, Knows, Enabled;
      TraceKnows(ys, es, i - 1, t);
      TraceGood(ys, es, i - 1);
      assert Moves(ys[i - 1], es[i - 1], ys[i]);
      KnowsStep(ys, es, i, t);
    }
  }

  /** This step adds no look of thread t and does not begin a call: what has been looked at stays. */
  lemma LookedSame(ys: seq<System>, es: seq<Event>, i: nat, t: nat)
    requires 0 < i <= |es| < |ys| && !(es[i - 1].Begin? && es[i - 1].t == t) && !Looks(ys[i - 1], es[i - 1], t)
    ensures forall s: nat, k: nat :: Looked(ys, es, i, t, s, k) <==> Looked(ys, es, i - 1, t, s, k)
    ensures forall s: nat, k: nat :: Found(ys, es, i, t, s, k) <==> Found(ys, es, i - 1, t, s, k)
  {
    hide LooksAt, FindsReady;
    forall s: nat, k: nat ensures Looked(ys, es, i, t, s, k) <==> Looked(ys, es, i - 1, t, s, k) {
      LookedStep(ys, es, i, t, s, k);
      assert !LooksAt(ys[i - 1], es[i - 1], t, s);
      if k >= i { assert !Looked(ys, es, i, t, s, k); }
    }
  }

  lemma KnowsSame(ys: seq<System>, es: seq<Event>, i: nat, t: nat)
    requires 0 < i <= |es| < |ys| && !(es[i - 1].Begin? && es[i - 1].t == t) && !Looks(ys[i - 1], es[i - 1], t)
    requires Knows(ys, es, i - 1, t) && t < |ys[i].threads|
    requires var th, th' := ys[i - 1].threads[t], ys[i].threads[t];
             th'.watch == th.watch && (th'.phase == th.phase || (th'.phase.Inc? && th.phase.Inc?) || th'.phase.Dec? || th'.phase.Out?)
    ensures Knows(ys, es, i, t)
  {
    hide Looked, LooksAt, FindsReady, Found;
    LookedSame(ys, es, i, t);
    var th, th' := ys[i - 1].threads[t], ys[i].threads[t];
    if th'.phase == th.phase && (th.phase.Scan? || th.phase.Wait?) {
      forall s {:trigger th'.watch[s]} | 0 <= s < |th'.watch| && (th'.phase.Scan? ==> s < th'.phase.i) && Any(th'.watch[s])
        ensures exists k: nat :: Looked(ys, es, i, t, s, k)
      {
        assert Any(th.watch[s]);
        var k: nat :| Looked(ys, es, i - 1, t, s, k);
        assert Looked(ys, es, i, t, s, k);
      }
    }
    if th'.phase.Scan? {
      var n: nat := i - 1;
      if s: nat, k: nat :| Found(ys, es, i, t, s, k) { assert Found(ys, es, n, t, s, k); }
      if s: nat, k: nat :| Found(ys, es, n, t, s, k) { assert Found(ys, es, i, t, s, k); }
    }
  }

  lemma KnowsBegin(ys: seq<System>, es: seq<Event>, i: nat, t: nat)
    requires 0 < i <= |es| < |ys| && es[i - 1].Begin? && es[i - 1].t == t && t < |ys[i].threads| && ys[i].threads[t].phase == Inc(0)
    ensures Knows(ys, es, i, t)
  {
    hide FindsReady;
    forall s: nat, k: nat ensures !Looked(ys, es, i, t, s, k) { LookedStep(ys, es, i, t, s, k); }
  }

  /** The second scan begins with nothing looked at, or ends with what was found. */
  lemma KnowsTurn(ys: seq<System>, es: seq<Event>, i: nat, t: nat)
    requires 0 < i <= |es| < |ys| && !es[i - 1].Begin? && !Looks(ys[i - 1], es[i - 1], t)
    requires Knows(ys, es, i - 1, t) && t < |ys[i].threads| && ys[i].threads[t].watch == ys[i - 1].threads[t].watch
    requires var th, th' := ys[i - 1].threads[t], ys[i].threads[t];
             || (th.phase.Inc? && th'.phase == Scan(0, false))
             || (th.phase.Scan? && !th.phase.found && th.phase.i >= |th.watch| && th'.phase.Wait?)
    ensures Knows(ys, es, i, t)
  {
    hide LooksAt, FindsReady, Looked;
    LookedSame(ys, es, i, t);
    var th, th' := ys[i - 1].threads[t], ys[i].threads[t];
    if th'.phase.Wait? {
      forall s {:trigger th'.watch[s]} | 0 <= s < |th'.watch| && Any(th'.watch[s]) ensures exists k: nat :: Looked(ys, es, i, t, s, k) {
        assert Any(th.watch[s]);
        var k: nat :| Looked(ys, es, i - 1, t, s, k);
        assert Looked(ys, es, i, t, s, k);
      }
    }
  }

  /** One more socket is passed in the second scan. */
  lemma KnowsScan(ys: seq<System>, es: seq<Event>, i: nat, t: nat)
    requires 0 < i <= |es| < |ys| && !es[i - 1].Begin? && Knows(ys, es, i - 1, t) && t < |ys[i].threads|
    requires ys[i].threads[t].watch == ys[i - 1].threads[t].watch
    requires var th, th' := ys[i - 1].threads[t], ys[i].threads[t];
             && th.phase.Scan? && th'.phase.Scan? && th'.phase.i == th.phase.i + 1 && th.phase.i < |th.watch|
             && (Any(th.watch[th.phase.i]) ==> LooksAt(ys[i - 1], es[i - 1], t, th.phase.i))
             && (th'.phase.found <==> th.phase.found || FindsReady(ys[i - 1], es[i - 1], t, th.phase.i))
    ensures Knows(ys, es, i, t)
  {
    var y, e, th, th' := ys[i - 1], es[i - 1], ys[i - 1].threads[t], ys[i].threads[t];
    var n: nat := i - 1;
    assert forall s: nat :: LooksAt(y, e, t, s) ==> s == th.phase.i;
    assert FindsReady(y, e, t, th.phase.i) ==> LooksAt(y, e, t, th.phase.i);
    hide LooksAt, FindsReady, Looked;
    forall s {:trigger th'.watch[s]} | 0 <= s < th'.phase.i && s < |th'.watch| && Any(th'.watch[s]) ensures exists k: nat :: Looked(ys, es, i, t, s, k) {
      assert Any(th.watch[s]);
      if s == th.phase.i {
        LookedStep(ys, es, i, t, s, n);
        assert Looked(ys, es, i, t, s, n);
      } else {
        var k: nat :| Looked(ys, es, n, t, s, k);
        LookedStep(ys, es, i, t, s, k);
        assert k < n by { LookedBefore(ys, es, n, t, s, k); }
        assert Looked(ys, es, i, t, s, k);
      }
    }
    if s: nat, k: nat :| Found(ys, es, n, t, s, k) {
      LookedStep(ys, es, i, t, s, k);
      assert k < n by { LookedBefore(ys, es, n, t, s, k); }
      assert Found(ys, es, i, t, s, k);
    }
    if FindsReady(y, e, t, th.phase.i) {
      LookedStep(ys, es, i, t, th.phase.i, n);
      assert Found(ys, es, i, t, th.phase.i, n);
    }
    if s: nat, k: nat :| Found(ys, es, i, t, s, k) {
      LookedStep(ys, es, i, t, s, k);
      assert k != n ==> Found(ys, es, n, t, s, k);
    }
  }

  lemma LookedBefore(ys: seq<System>, es: seq<Event>, i: nat, t: nat, s: nat, k: nat)
    requires i <= |es| < |ys| && Looked(ys, es, i, t, s, k)
    ensures k < i
  {
  }

  lemma KnowsStep(ys: seq<System>, es: seq<Event>, i: nat, t: nat)
    requires 0 < i <= |es| < |ys| && Good(ys[i - 1]) && Enabled(ys[i - 1], es[i - 1]) && ys[i] == Next(ys[i - 1], es[i - 1])
    requires Knows(ys, es, i - 1, t)
    ensures Knows(ys, es, i, t)
  {
    var y, e := ys[i - 1], es[i - 1];
    var th := y.threads[t];
    hide Next, Good, Looked, FindsReady, Knows;
    if !Own(e, t) {
      OthersStay(y, e, t);
      KnowsSame(ys, es, i, t);
    } else {
      OwnMoves(y, e, t);
      var th' := ys[i].threads[t];
      if e.Begin? {
        KnowsBegin(ys, es, i, t);
      } else if e.ScanStep? {
        ScanMoves(y, e, t);
        if th'.phase.Scan? {
          KnowsScan(ys, es, i, t);
        } else if th'.phase.Wait? {
          KnowsTurn(ys, es, i, t);
        } else {
          KnowsNothing(ys, es, i, t);
        }
      } else if e.IncStep? && th'.phase.Scan? {
        KnowsTurn(ys, es, i, t);
      } else {
        KnowsSame(ys, es, i, t);
      }
    }
  }

  lemma KnowsNothing(ys: seq<System>, es: seq<Event>, i: nat, t: nat)
    requires i <= |es| < |ys| && t < |ys[i].threads| && (ys[i].threads[t].phase.Dec? || ys[i].threads[t].phase.Out?)
    ensures Knows(ys, es, i, t)
  {
  }

  /** In every interleaving: at the end of its second scan a thread waits exactly if in this call it has found nothing ready;
      otherwise it goes on to leave. */
  lemma WaitsIff(ys: seq<System>, es: seq<Event>, i: nat, t: nat)
    requires IsTrace(ys, es) && i < |es| && t < |ys[0].threads| && es[i].ScanStep? && es[i].t == t
    requires t < |ys[i].threads| && ys[i].threads[t].phase.Scan? && ys[i].threads[t].phase.i >= |ys[i].threads[t].watch|
    ensures t < |ys[i + 1].threads|
    ensures var th' := ys[i + 1].threads[t];
            && (th'.phase.Wait? <==> forall s: nat, k: nat :: !Found(ys, es, i, t, s, k))
            && (!th'.phase.Wait? ==> th'.phase == Dec(0, |th'.watch|))
  {
    hide Next, Good, Found;
    TraceKnows(ys, es, i, t);
    TraceGood(ys, es, i);
    assert Moves(ys[i], es[i], ys[i + 1]);
    OwnMoves(ys[i], es[i], t);
    ScanMoves(ys[i], es[i], t);
  }

  /** In every interleaving: a thread that waits has looked at everything it watches in this call, and found nothing ready. */
  lemma WaitedFor(ys: seq<System>, es: seq<Event>, i: nat, t: nat, s: nat) returns (k: nat)
    requires IsTrace(ys, es) && i <= |es| && t < |ys[0].threads| && t < |ys[i].threads| && ys[i].threads[t].phase.Wait?
    requires s < |ys[i].threads[t].watch| && Any(ys[i].threads[t].watch[s])
    ensures Looked(ys, es, i, t, s, k) && forall r: nat, m: nat :: !Found(ys, es, i, t, r, m)
  {
    hide Looked, Found;
    TraceKnows(ys, es, i, t);
    assert Any(ys[i].threads[t].watch[s]);
    k :| Looked(ys, es, i, t, s, k);
  }

  // ---- why a thread is signalled

  /** What a handler carries is what an event left behind. */
  ghost predicate Stems(ys: seq<System>, es: seq<Event>, i: nat, h: Handler, m: nat)
    requires i <= |es| < |ys|
  {
    m < i && !h.Finished? && es[m].Post? && es[m].s == h.s && h.s < |ys[m + 1].socks| && h.flags == Ready(ys[m + 1].socks[h.s])
  }

  lemma HandlersStep(y: System, e: Event, k: nat)
    requires Good(y) && Enabled(y, e)
    ensures var y' := Next(y, e);
            && |y.handlers| <= |y'.handlers|
            && (k < |y.handlers| && !y'.handlers[k].Finished? ==>
                  !y.handlers[k].Finished? && y'.handlers[k].s == y.handlers[k].s && y'.handlers[k].flags == y.handlers[k].flags)
            && (|y.handlers| <= k < |y'.handlers| ==>
                  e.Post? && e.s < |y'.socks| && y'.handlers[k] == Starting(e.s, Ready(y'.socks[e.s])))
  {
    hide Represents, NoLostWakeup, Counted, ThreadOk, Losers, Link, Unlink;
    match e
    case Begin(_, _) => BeginReady(y);
    case ScanStep(u, _, _) => ThreadFacts(y, u);
    case DecStep(u) => DecReady(y, u);
    case Walk(_) => WalkReady(y, e.k);
    case _ =>
  }

  lemma {:induction false} HandlerStems(ys: seq<System>, es: seq<Event>, i: nat, k: nat) returns (m: nat)
    requires IsTrace(ys, es) && i <= |es| && k < |ys[i].handlers| && !ys[i].handlers[k].Finished?
    ensures Stems(ys, es, i, ys[i].handlers[k], m)
  {
    hide Next, Good;
    assert i > 0;
    TraceGood(ys, es, i - 1);
    assert Moves(ys[i - 1], es[i - 1], ys[i]);
    HandlersStep(ys[i - 1], es[i - 1], k);
    if k < |ys[i - 1].handlers| { m := HandlerStems(ys, es, i - 1, k); } else { m := i - 1; }
  }

  lemma SignalStep(y: System, e: Event, t: nat)
    requires Good(y) && Enabled(y, e) && t < |y.threads| && !y.threads[t].signalled
    ensures var y' := Next(y, e);
            t < |y'.threads| && (y'.threads[t].signalled ==>
              e.Walk? && e.k < |y.handlers| && !y.handlers[e.k].Finished? && y.handlers[e.k].s < |y.threads[t].watch| &&
              exists b: Bit :: Has(y.threads[t].watch[y.handlers[e.k].s], b) && Has(y.handlers[e.k].flags, b))
  {
    hide Represents, NoLostWakeup, Counted, ThreadOk, Losers, Link, Unlink;
    match e
    case Begin(_, _) => BeginReady(y);
    case ScanStep(u, _, _) => ThreadFacts(y, u);
    case DecStep(u) => DecReady(y, u);
    case Walk(k) =>
      WalkReady(y, k);
      if Wanted(y.threads[t], y.handlers[k].s, y.handlers[k].flags) {
        var w, f := y.threads[t].watch[y.handlers[k].s], y.handlers[k].flags;
        assert (Has(w, Read) && Has(f, Read)) || (Has(w, Write) && Has(f, Write)) || (Has(w, Except) && Has(f, Except));
      }
    case _ =>
  }

  /** In every interleaving: a thread is signalled only for an event on a socket it watches, which found a condition that it
      watches ready. */
  lemma SignalStems(ys: seq<System>, es: seq<Event>, i: nat, t: nat) returns (s: nat, b: Bit, m: nat)
    requires IsTrace(ys, es) && i < |es| && t < |ys[i].threads| && !ys[i].threads[t].signalled
    requires t < |ys[i + 1].threads| && ys[i + 1].threads[t].signalled
    ensures m < i && es[m].Post? && es[m].s == s && s < |ys[i].threads[t].watch| && Has(ys[i].threads[t].watch[s], b)
    ensures s < |ys[m + 1].socks| && Has(Ready(ys[m + 1].socks[s]), b)
  {
    hide Next, Good;
    TraceGood(ys, es, i);
    assert Moves(ys[i], es[i], ys[i + 1]);
    SignalStep(ys[i], es[i], t);
    var h := ys[i].handlers[es[i].k];
    s := h.s;
    b :| Has(ys[i].threads[t].watch[s], b) && Has(h.flags, b);
    m := HandlerStems(ys, es, i, es[i].k);
  }

  // ---- a call, and a handler, come to their ends

  function Saturated(a: nat, b: nat): nat { if a > b then a - b else 0 }

  /** How many steps of its own a thread has at most before it in this call. */
  function Rank(th: Thread): nat {
    var n := |th.watch|;
    match th.phase
    case Out => 0
    case Dec(i, upto) => 1 + Saturated(upto, i)
    case Wait => n + 2
    case Scan(i, _) => n + 3 + Saturated(n, i)
    case Inc(i) => 2 * n + 4 + Saturated(n, i)
  }

  lemma OwnStepRanks(y: System, e: Event, t: nat)
    requires Good(y) && Enabled(y, e) && t < |y.threads| && Own(e, t) && !e.Begin?
    ensures |Next(y, e).threads| == |y.threads| && Rank(Next(y, e).threads[t]) < Rank(y.threads[t])
  {
    ThreadFacts(y, t);
    hide Good, Next, Counting;
    OwnMoves(y, e, t);
    if e.ScanStep? { ScanMoves(y, e, t); }
    if e.IncStep? { CountingRanks(y, y.threads[t], e.ok); }
  }

  lemma CountingRanks(y: System, th: Thread, ok: bool)
    requires th.phase.Inc?
    ensures Rank(th.(phase := Counting(y, th, ok))) < Rank(th)
  {
  }

  lemma OtherRanks(y: System, e: Event, t: nat)
    requires Good(y) && Enabled(y, e) && t < |y.threads| && !Own(e, t)
    ensures |Next(y, e).threads| == |y.threads| && Rank(Next(y, e).threads[t]) == Rank(y.threads[t])
  {
    hide Good, Next;
    OthersStay(y, e, t);
  }

  /** Steps of its own that thread t makes from i to j. */
  function OwnSteps(es: seq<Event>, t: nat, i: nat, j: nat): nat
    requires i <= j <= |es|
    decreases j
  {
    if i == j then 0 else OwnSteps(es, t, i, j - 1) + if Own(es[j - 1], t) then 1 else 0
  }

  /** In every interleaving: a select call that begins in step i makes at most 3 * |watch| + 4 steps of its own, however often
      other threads and handlers come in between; and one that is not over, and does not wait, can make a step. */
  lemma {:induction false} CallEnds(ys: seq<System>, es: seq<Event>, i: nat, j: nat, t: nat)
    requires IsTrace(ys, es) && i <= j <= |es| && t < |ys[0].threads|
    requires forall k {:trigger es[k]} :: i <= k < j ==> !(es[k].Begin? && es[k].t == t)
    ensures t < |ys[i].threads| && t < |ys[j].threads|
    ensures Rank(ys[j].threads[t]) + OwnSteps(es, t, i, j) <= Rank(ys[i].threads[t])
    ensures Rank(ys[j].threads[t]) > 0 && !ys[j].threads[t].phase.Wait? ==> exists e :: Own(e, t) && !e.Begin? && Enabled(ys[j], e)
    decreases j
  {
    TraceThreads(ys, es, i);
    TraceThreads(ys, es, j);
    var th := ys[j].threads[t];
    if Rank(th) > 0 && !th.phase.Wait? {
      var e := if th.phase.Inc? then IncStep(t, true) else if th.phase.Scan? then ScanStep(t, true, false) else DecStep(t);
      assert Own(e, t) && Enabled(ys[j], e);
    }
    if i < j {
      hide Next, Good, Rank, Enabled;
      CallEnds(ys, es, i, j - 1, t);
      TraceGood(ys, es, j - 1);
      assert Moves(ys[j - 1], es[j - 1], ys[j]);
      if Own(es[j - 1], t) { OwnStepRanks(ys[j - 1], es[j - 1], t); } else { OtherRanks(ys[j - 1], es[j - 1], t); }
    }
  }

  lemma {:induction false} TraceThreads(ys: seq<System>, es: seq<Event>, i: nat)
    requires IsTrace(ys, es) && i <= |es|
    ensures |ys[i].threads| == |ys[0].threads|
  {
    if i > 0 {
      hide Next, Good, Enabled;
      TraceThreads(ys, es, i - 1);
      TraceGood(ys, es, i - 1);
      assert Moves(ys[i - 1], es[i - 1], ys[i]);
      ThreadsStay(ys[i - 1], es[i - 1]);
    }
  }

  lemma ThreadsStay(y: System, e: Event)
    requires Good(y) && Enabled(y, e)
    ensures |Next(y, e).threads| == |y.threads|
  {
    hide Represents, NoLostWakeup, Counted, ThreadOk, Losers, Link, Unlink, Update;
    match e
    case Begin(_, _) => BeginReady(y);
    case ScanStep(u, _, _) => ThreadFacts(y, u);
    case DecStep(u) => DecReady(y, u);
    case Walk(k) => WalkReady(y, k);
    case _ =>
  }

  /** Every step of a handler brings it further down the list, or it is over; so that, while the list stays as it is, it is over
      after at most one step more than there are nodes. */
  lemma HandlerWalks(y: System, k: nat)
    requires Good(y) && k < |y.handlers| && !y.handlers[k].Finished?
    ensures var y' := Next(y, Walk(k));
            && k < |y'.handlers| && y'.order == y.order && y'.ctr == y.ctr
            && (y'.handlers[k].Finished? || Ahead(y', y'.handlers[k]) < Ahead(y, y.handlers[k]))
            && (Ahead(y, y.handlers[k]) == 0 ==> y'.handlers[k].Finished?)
  {
    hide Represents, Counted, NoLostWakeup, ThreadOk;
    WalkReady(y, k);
    var h := y.handlers[k];
    if Target(y, h) >= 0 { TargetCloser(y, h); }
  }
}
