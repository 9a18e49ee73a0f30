/**
 Receive events on a connection that lwip_accept has not given a socket yet: event_callback
 counts them below -1 in conn->socket, and lwip_accept replays them.
*/
module EarlyEvents {

  /** Where lwip_accept stands with this connection. */
  datatype Accept = Waiting | Allocated | Published

  /** socket: conn->socket; rcvevent: of the new socket; owed: replays lwip_accept has still to
      make; called, reread, landing: event_callback runs in flight that are about to read
      conn->socket, about to read it again under the lock, and about to raise rcvevent;
      posted: receive events so far; taken: receive events consumed by reading. */
  datatype State = State(accept: Accept, socket: int, count: Count, runs: Runs, total: Total)

  datatype Count = Count(rcvevent: int, owed: int)

  datatype Total = Total(posted: nat, taken: nat)

  datatype Runs = Runs(called: nat, reread: nat, landing: nat)

  /** Conversion to s16_t. */
  function S16(x: int): (r: int)
    ensures -0x8000 <= r < 0x8000
    ensures -0x8000 <= x < 0x8000 ==> r == x
  {
    var m := x % 0x10000;
    if m < 0x8000 then m else m - 0x10000
  }

  datatype Event = Post | FirstRead | SecondRead | Land | Alloc | Publish(newsock: nat) | Replay | Take

  predicate Enabled(s: State, e: Event) {
    match e
    case Post => true
    case FirstRead => s.runs.called > 0
    case SecondRead => s.runs.reread > 0
    case Land => s.runs.landing > 0
    case Alloc => s.accept.Waiting?
    case Publish(_) => s.accept.Allocated?
    case Replay => s.accept.Published? && s.count.owed > 0
    // whatever is taken was put into the mailbox before its event was posted
    case Take => s.accept.Published? && s.total.taken < s.total.posted
  }

  function Next(s: State, e: Event): State
    requires Enabled(s, e)
  {
    var f := s.runs;
    match e
    case Post => s.(total := s.total.(posted := s.total.posted + 1), runs := f.(called := f.called + 1))
    case FirstRead =>
      if s.socket < 0 then s.(runs := f.(called := f.called - 1, reread := f.reread + 1))
      else s.(runs := f.(called := f.called - 1, landing := f.landing + 1))
    case SecondRead =>
      if s.socket < 0 then s.(runs := f.(reread := f.reread - 1), socket := s.socket - 1)
      else s.(runs := f.(reread := f.reread - 1, landing := f.landing + 1))
    case Land => s.(runs := f.(landing := f.landing - 1), count := s.count.(rcvevent := S16(s.count.rcvevent + 1)))
    case Alloc => s.(accept := Allocated, count := s.count.(rcvevent := 0))
    case Publish(newsock) => s.(accept := Published, count := s.count.(owed := S16(-1 - s.socket)), socket := newsock)
    case Replay => s.(count := s.count.(owed := s.count.owed - 1), runs := f.(called := f.called + 1))
    case Take => s.(total := s.total.(taken := s.total.taken + 1), count := s.count.(rcvevent := S16(s.count.rcvevent - 1)))
  }

  /** A connection nobody has accepted and nothing has arrived on. */
  predicate Initial(s: State) {
    && s.accept.Waiting? && s.socket == -1
    && s.count.rcvevent == s.count.owed == 0 && s.runs.called == s.runs.reread == s.runs.landing == 0 && s.total.posted == s.total.taken == 0
  }

  /** Events counted in conn->socket. */
  function Early(s: State): int {
    if s.accept.Published? then 0 else -1 - s.socket
  }

  /** Events posted that the socket does not count yet. */
  function Uncounted(s: State): int {
    Early(s) + s.count.owed + s.runs.called + s.runs.reread + s.runs.landing
  }

  /** Every event posted is in exactly one place. */
  predicate Accounted(s: State) {
    s.total.posted == Uncounted(s) + s.count.rcvevent + s.total.taken
  }

  predicate Good(s: State) {
    && Accounted(s) && 0 <= Early(s) && 0 <= s.count.owed && s.total.taken <= s.total.posted
    && (s.accept.Published? <==> s.socket >= 0)
    && (!s.accept.Published? ==> s.count.owed == 0 && s.count.rcvevent == 0 && s.runs.landing == 0 && s.total.taken == 0)
  }

  /** At most 32767 events are unread, and at most 32767 uncounted. */
  predicate Bounded(s: State) {
    s.total.posted - s.total.taken <= 0x7fff && Uncounted(s) <= 0x7fff
  }

  lemma InitialGood(s: State)
    requires Initial(s)
    ensures Good(s)
  {
  }

  lemma NextKeeps(s: State, e: Event)
    requires Good(s) && Enabled(s, e) && Bounded(s)
    ensures Good(Next(s, e))
  {
  }

  /** The replay is complete exactly when at most 32767 events came early. */
  lemma PublishCompleteIff(s: State, newsock: nat)
    requires Good(s) && Enabled(s, Publish(newsock))
    ensures Accounted(Next(s, Publish(newsock))) <==> Early(s) <= 0x7fff
  {
  }

  ghost predicate IsTrace(ss: seq<State>, es: seq<Event>) {
    && |ss| == |es| + 1 && Initial(ss[0])
    && forall i {:trigger es[i]} :: 0 <= i < |es| ==> Moves(ss[i], es[i], ss[i + 1])
  }

  predicate Moves(s: State, e: Event, s': State) {
    Enabled(s, e) && s' == Next(s, e)
  }

  ghost predicate AllBounded(ss: seq<State>) {
    forall k {:trigger Bounded(ss[k])} :: 0 <= k < |ss| ==> Bounded(ss[k])
  }

  /** In every interleaving of receive events with lwip_accept and readers, the events counted in
      conn->socket, the replays owed, the runs in flight, rcvevent and the events taken make up
      the events posted. */
  lemma {:induction false} TraceGood(ss: seq<State>, es: seq<Event>, i: nat)
    requires IsTrace(ss, es) && i <= |es|
    requires AllBounded(ss)
    ensures Good(ss[i])
  {
    hide Next, Good, Initial, Bounded, Enabled;
    if i == 0 {
      InitialGood(ss[0]);
    } else {
      TraceGood(ss, es, i - 1);
      assert Moves(ss[i - 1], es[i - 1], ss[i]) && Bounded(ss[i - 1]);
      NextKeeps(ss[i - 1], es[i - 1]);
    }
  }

  lemma Extend(ss: seq<State>, es: seq<Event>, e: Event) returns (ss': seq<State>, es': seq<Event>)
    requires |ss| == |es| + 1 && IsTrace(ss, es) && Enabled(ss[|es|], e)
    ensures |ss'| == |es'| + 1 && ss' == ss + [Next(ss[|es|], e)] && es' == es + [e] && IsTrace(ss', es')
  {
    hide Next, Initial, Enabled;
    ss', es' := ss + [Next(ss[|es|], e)], es + [e];
    forall i {:trigger es'[i]} | 0 <= i < |es'| ensures Moves(ss'[i], es'[i], ss'[i + 1]) {
      if i < |es| { assert Moves(ss[i], es[i], ss[i + 1]); }
    }
  }

  /** n events have come early, and nothing is in flight. */
  predicate OnlyEarly(s: State, n: nat) {
    s.accept.Waiting? && Early(s) == s.total.posted == n && s.runs.called == s.runs.reread == s.runs.landing == 0
  }

  lemma OneMoreEarly(s: State, n: nat)
    requires Good(s) && OnlyEarly(s, n)
    ensures Enabled(s, Post) && Enabled(Next(s, Post), FirstRead) && Enabled(Next(Next(s, Post), FirstRead), SecondRead)
    ensures var s' := Next(Next(Next(s, Post), FirstRead), SecondRead); Good(s') && OnlyEarly(s', n + 1)
  {
  }

  lemma EarlyLonger(ss: seq<State>, es: seq<Event>, n: nat) returns (ss': seq<State>, es': seq<Event>)
    requires |ss| == |es| + 1 && IsTrace(ss, es) && Good(ss[|es|]) && OnlyEarly(ss[|es|], n)
    ensures |ss'| == |es'| + 1 && IsTrace(ss', es') && Good(ss'[|es'|]) && OnlyEarly(ss'[|es'|], n + 1)
  {
    hide Next, Enabled, IsTrace, Good, OnlyEarly;
    var s := ss[|es|];
    OneMoreEarly(s, n);
    ss', es' := Extend(ss, es, Post);
    assert ss'[|es'|] == Next(s, Post);
    ss', es' := Extend(ss', es', FirstRead);
    assert ss'[|es'|] == Next(Next(s, Post), FirstRead);
    ss', es' := Extend(ss', es', SecondRead);
  }

  lemma EmptyRun(s0: State)
    requires Initial(s0)
    ensures IsTrace([s0], []) && Good(s0) && OnlyEarly(s0, 0)
  {
    hide Initial, Next, Enabled, Moves, Good, OnlyEarly;
    InitialGood(s0);
    NoneEarly(s0);
  }

  lemma NoneEarly(s0: State)
    requires Initial(s0)
    ensures OnlyEarly(s0, 0)
  {
    hide Next, Enabled, Moves, S16;
  }

  /** Any number of events may come before lwip_accept looks at the connection. */
  lemma {:induction false} EarlyRun(s0: State, n: nat) returns (ss: seq<State>, es: seq<Event>)
    requires Initial(s0)
    ensures |ss| == |es| + 1 && IsTrace(ss, es) && Good(ss[|es|]) && OnlyEarly(ss[|es|], n)
  {
    hide *;
    if n == 0 {
      ss, es := [s0], [];
      EmptyRun(s0);
    } else {
      ss, es := EarlyRun(s0, n - 1);
      ss, es := EarlyLonger(ss, es, n - 1);
    }
  }

  /** With 32768 early events, none is replayed. */
  lemma TooManyEarly(s0: State, newsock: nat) returns (ss: seq<State>, es: seq<Event>)
    requires Initial(s0)
    ensures |ss| == |es| + 1 && IsTrace(ss, es)
    ensures var s := ss[|es|]; s.accept.Published? && s.total.posted == 0x8000 && s.count.owed <= 0 && s.count.rcvevent == 0 && !Accounted(s)
  {
    ss, es := EarlyRun(s0, 0x8000);
    hide IsTrace;
    ss, es := Extend(ss, es, Alloc);
    PublishCompleteIff(ss[|es|], newsock);
    ss, es := Extend(ss, es, Publish(newsock));
  }

  /** Once everything has settled, rcvevent is the number of events posted and not taken. */
  lemma NoneLost(ss: seq<State>, es: seq<Event>, i: nat)
    requires IsTrace(ss, es) && i <= |es|
    requires AllBounded(ss)
    requires ss[i].accept.Published? && ss[i].count.owed == ss[i].runs.called == ss[i].runs.reread == ss[i].runs.landing == 0
    ensures ss[i].count.rcvevent == ss[i].total.posted - ss[i].total.taken
  {
    TraceGood(ss, es, i);
  }

  // ---- everything settles

  /** A step of an event_callback in flight, or of the replay. */
  predicate Handles(e: Event) {
    e.FirstRead? || e.SecondRead? || e.Land? || e.Replay?
  }

  /** Steps that are left at most until all events are counted, once the socket is published. */
  function Work(s: State): int {
    4 * s.count.owed + 3 * s.runs.called + 2 * s.runs.reread + s.runs.landing
  }

  function Handled(es: seq<Event>, i: nat, j: nat): nat
    requires i <= j <= |es|
    decreases j
  {
    if i == j then 0 else Handled(es, i, j - 1) + if Handles(es[j - 1]) then 1 else 0
  }

  function Posted(es: seq<Event>, i: nat, j: nat): nat
    requires i <= j <= |es|
    decreases j
  {
    if i == j then 0 else Posted(es, i, j - 1) + if es[j - 1].Post? then 1 else 0
  }

  lemma WorkStep(s: State, e: Event)
    requires Good(s) && Enabled(s, e) && s.accept.Published?
    ensures Next(s, e).accept.Published?
    ensures Work(Next(s, e)) + (if Handles(e) then 1 else 0) <= Work(s) + if e.Post? then 3 else 0
    ensures Work(s) > 0 ==> exists h :: Handles(h) && Enabled(s, h)
  {
    if Work(s) > 0 {
      var h := if s.count.owed > 0 then Replay else if s.runs.called > 0 then FirstRead else if s.runs.reread > 0 then SecondRead else Land;
      assert Handles(h) && Enabled(s, h);
    }
  }

  /** In every run from where the socket is published, each step of what is in flight brings the end nearer, so that after
      Work steps, and three more for every new event, rcvevent is the number of events posted and not taken. */
  lemma {:induction false} Settles(ss: seq<State>, es: seq<Event>, i: nat, j: nat)
    requires IsTrace(ss, es) && AllBounded(ss) && i <= j <= |es| && ss[i].accept.Published?
    ensures ss[j].accept.Published? && Work(ss[j]) + Handled(es, i, j) <= Work(ss[i]) + 3 * Posted(es, i, j)
    ensures Handled(es, i, j) >= Work(ss[i]) + 3 * Posted(es, i, j) ==> ss[j].count.rcvevent == ss[j].total.posted - ss[j].total.taken
    decreases j
  {
    hide Next, Enabled;
    TraceGood(ss, es, j);
    if i < j {
      Settles(ss, es, i, j - 1);
      TraceGood(ss, es, j - 1);
      assert Moves(ss[j - 1], es[j - 1], ss[j]);
      WorkStep(ss[j - 1], es[j - 1]);
    }
  }
}
