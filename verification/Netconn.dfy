/**
 The TCP side of api_msg.c: application threads post messages to a blocking netconn and wait, and
 the callbacks of the TCP stack finish them. Every function below runs in the stack's thread, one
 after the other; what TCP answers comes in as an argument.
*/
module NetconnModel {
  import opened Basics
  import opened Errors

  datatype Phase = Idle | Write | Listen | Connect | Close

  /** An API message: the error stored in it, how often its semaphore was signalled, polls_left, and
      whether it is to shut down both directions (shut is NETCONN_SHUT_RDWR). */
  datatype Msg = Msg(err: Option<Err>, signals: nat, polls: nat, both: bool)

  /** state, current_msg, whether there is a pcb, pending_err, and all messages posted so far; lost: those
      that were current_msg when another message took that place. */
  datatype Conn = Conn(state: Phase, current: Option<nat>, pcb: bool, pending: Option<Err>, msgs: seq<Msg>, lost: set<nat>)

  predicate Busy(p: Phase) {
    p.Write? || p.Connect? || p.Close?
  }

  /** A new message arrives. */
  function Post(c: Conn, polls: nat, both: bool): Conn {
    c.(msgs := c.msgs + [Msg(None, 0, polls, both)])
  }

  function Store(c: Conn, id: nat, err: Err): Conn
    requires id < |c.msgs|
  {
    c.(msgs := c.msgs[id := c.msgs[id].(err := Some(err))])
  }

  /** A thread is woken only once its message holds the error it is going to read. */
  function Signal(c: Conn, id: nat): Conn
    requires id < |c.msgs| && c.msgs[id].err.Some?
  {
    c.(msgs := c.msgs[id := c.msgs[id].(signals := c.msgs[id].signals + 1)])
  }

  function Ack(c: Conn, id: nat, err: Err): Conn
    requires id < |c.msgs|
  {
    Signal(Store(c, id, err), id)
  }

  /** The message becomes the one in progress. */
  function Occupy(c: Conn, p: Phase, id: nat): Conn {
    c.(state := p, current := Some(id), lost := if c.current.Some? then c.lost + {c.current.value} else c.lost)
  }

  /** The operation in progress is over. */
  function Complete(c: Conn, err: Err): Conn
    requires c.current.Some? && c.current.value < |c.msgs|
  {
    Ack(c.(state := Idle, current := None), c.current.value, err)
  }

  predicate Working(c: Conn, p: Phase) {
    c.state == p && c.pcb && c.current.Some? && c.current.value < |c.msgs|
  }

  /** lwip_netconn_do_writemore; done: the error it finishes with, if it does. */
  function WriteMore(c: Conn, done: Option<Err>): Conn
    requires Working(c, Write)
  {
    if done.Some? then Complete(c, done.value) else c
  }

  /** Whether, and with what error, an attempt to close is the last one. */
  function CloseResult(tcp: Err, shutClose: bool, polls: nat): Option<Err> {
    if tcp.Mem? then (if polls > 0 then None else Some(if shutClose then Ok else Mem)) else Some(tcp)
  }

  /** lwip_netconn_do_close_internal; tcp: what tcp_close or tcp_shutdown returned; other: whether the
      other direction has been shut down before. */
  function CloseInternal(c: Conn, tcp: Err, other: bool): Conn
    requires Working(c, Close)
  {
    var m := c.msgs[c.current.value];
    var shutClose := m.both || other;
    var r := CloseResult(tcp, shutClose, m.polls);
    if r.None? then c
    else Complete(c, r.value).(pcb := !(r.value.Ok? && shutClose))
  }

  /** lwip_netconn_do_write */
  function DoWrite(c0: Conn, done: Option<Err>): Conn {
    var c, id := Post(c0, 0, false), |c0.msgs|;
    if c.pending.Some? then Ack(c.(pending := None), id, c.pending.value)
    else if !c.state.Idle? then Ack(c, id, InProgress)
    else if c.pcb then WriteMore(Occupy(c, Write, id), done)
    else Ack(c, id, NotConnected)
  }

  /** lwip_netconn_do_close */
  function DoClose(c0: Conn, both: bool, polls: nat, tcp: Err, other: bool): Conn {
    var c, id := Post(c0, polls, both), |c0.msgs|;
    if c.pcb && (both || !c.state.Listen?) then
      if c.state.Connect? then Ack(c, id, NotConnected)
      else if c.state.Write? then Ack(c, id, InProgress)
      else CloseInternal(Occupy(c, Close, id), tcp, other)
    else Ack(c, id, NotConnected)
  }

  /** lwip_netconn_do_delconn */
  function DoDelconn(c0: Conn, polls: nat, tcp: Err): Conn {
    var c, id := Post(c0, polls, true), |c0.msgs|;
    if Busy(c.state) then Ack(c, id, InProgress)
    else if c.pcb then CloseInternal(Occupy(c, Close, id), tcp, false)
    else Ack(c, id, Ok)
  }

  /** lwip_netconn_do_connect; tcp: what tcp_connect returned. */
  function DoConnect(c0: Conn, tcp: Err): Conn {
    var c, id := Post(c0, 0, false), |c0.msgs|;
    if !c.pcb then Ack(c, id, Closed)
    else if c.state.Connect? then Ack(c, id, Already)
    else if !c.state.Idle? then Ack(c, id, IsConn)
    else if tcp.Ok? then Occupy(c, Connect, id)
    else Ack(c, id, tcp)
  }

  /** lwip_netconn_do_connected */
  function Connected(c: Conn, err: Err): Conn
    requires Working(c, Connect)
  {
    Complete(c, err)
  }

  /** sent_tcp */
  function Sent(c: Conn, done: Option<Err>, tcp: Err, other: bool): Conn
    requires Busy(c.state) ==> Working(c, c.state)
  {
    if c.state.Write? then WriteMore(c, done)
    else if c.state.Close? then CloseInternal(c, tcp, other)
    else c
  }

  /** poll_tcp */
  function Poll(c: Conn, done: Option<Err>, tcp: Err, other: bool): Conn
    requires Busy(c.state) ==> Working(c, c.state)
  {
    if c.state.Write? then WriteMore(c, done)
    else if c.state.Close? then
      CloseInternal(Polled(c), tcp, other)
    else c
  }

  /** err_tcp */
  function ErrTcp(c: Conn, err: Err): Conn
    requires Busy(c.state) ==> Working(c, c.state)
  {
    var c1 := c.(pcb := false, pending := Some(err), state := Idle);
    if Busy(c.state) then Ack(c1.(current := None), c.current.value, if c.state.Close? then Ok else err) else c1
  }

  // ---- the invariant

  /** A message that is not being worked on has been answered: once, with an error code in it. */
  predicate Answered(m: Msg) {
    m.signals == 1 && m.err.Some?
  }

  /** current_msg is set exactly while a write, a close or a connect is in progress; its thread is still
      waiting, and there is a pcb to work on. Every other message posted has been answered, unless it lost its
      place to another one; and once a close of both directions has been acknowledged without error there is
      no pcb any more. */
  ghost predicate Good(c: Conn) {
    && (c.current.Some? <==> Busy(c.state))
    && (c.current.Some? ==> CurrentOk(c, c.current.value))
    && (forall i {:trigger c.msgs[i]} :: 0 <= i < |c.msgs| && c.current != Some(i) && i !in c.lost ==> Answered(c.msgs[i]))
    && (forall i {:trigger i in c.lost} :: i in c.lost ==> i < |c.msgs| && c.msgs[i].signals == 0 && c.msgs[i].err.None?)
    && (c.pcb ==> forall i {:trigger c.msgs[i]} :: 0 <= i < |c.msgs| ==> !ClosedBoth(c.msgs[i]))
  }

  ghost predicate CurrentOk(c: Conn, id: nat)
    requires c.current == Some(id)
  {
    Working(c, c.state) && c.msgs[id].signals == 0 && c.msgs[id].err.None? && (c.msgs[id].both ==> c.state.Close?) && id !in c.lost
  }

  /** Both directions were closed, without an error. */
  predicate ClosedBoth(m: Msg) {
    m.both && m.err == Some(Ok)
  }

  datatype Event =
    | PostWrite(done: Option<Err>)
    | PostClose(both: bool, polls: nat, tcp: Err, other: bool)
    | PostDelete(polls: nat, tcp: Err)
    | PostConnect(tcp: Err)
    | OnConnected(err: Err)
    | OnSent(done: Option<Err>, tcp: Err, other: bool)
    | OnPoll(done: Option<Err>, tcp: Err, other: bool)
    | OnError(err: Err)
    | StartListen

  /** Callbacks come from a pcb. */
  predicate Enabled(c: Conn, e: Event) {
    match e
    case OnConnected(_) => c.state.Connect?
    case OnSent(_, _, _) => c.pcb
    case OnPoll(_, _, _) => c.pcb
    case OnError(_) => c.pcb
    case StartListen => c.pcb && c.state.Idle?
    case _ => true
  }

  ghost function Next(c: Conn, e: Event): Conn
    requires Good(c) && Enabled(c, e)
  {
    match e
    case PostWrite(done) => DoWrite(c, done)
    case PostClose(both, polls, tcp, other) => DoClose(c, both, polls, tcp, other)
    case PostDelete(polls, tcp) => DoDelconn(c, polls, tcp)
    case PostConnect(tcp) => DoConnect(c, tcp)
    case OnConnected(err) => Connected(c, err)
    case OnSent(done, tcp, other) => Sent(c, done, tcp, other)
    case OnPoll(done, tcp, other) => Poll(c, done, tcp, other)
    case OnError(err) => ErrTcp(c, err)
    case StartListen => c.(state := Listen)
  }

  /** The same, but message id has just been posted. */
  ghost predicate GoodBut(c: Conn, id: nat) {
    && (c.current.Some? <==> Busy(c.state))
    && (c.current.Some? ==> CurrentOk(c, c.current.value))
    && id < |c.msgs| && c.msgs[id].signals == 0 && c.msgs[id].err.None? && c.current != Some(id) && id !in c.lost
    && (forall i {:trigger c.msgs[i]} :: 0 <= i < |c.msgs| && c.current != Some(i) && i != id && i !in c.lost ==> Answered(c.msgs[i]))
    && (forall i {:trigger i in c.lost} :: i in c.lost ==> i < |c.msgs| && c.msgs[i].signals == 0 && c.msgs[i].err.None?)
    && (c.pcb ==> forall i {:trigger c.msgs[i]} :: 0 <= i < |c.msgs| ==> !ClosedBoth(c.msgs[i]))
  }

  lemma PostGood(c: Conn, polls: nat, both: bool)
    requires Good(c)
    ensures GoodBut(Post(c, polls, both), |c.msgs|)
  {
  }

  lemma AckGood(c: Conn, id: nat, err: Err)
    requires GoodBut(c, id) && (c.msgs[id].both && err.Ok? ==> !c.pcb)
    ensures Good(Ack(c, id, err))
  {
  }

  lemma OccupyGood(c: Conn, p: Phase, id: nat)
    requires GoodBut(c, id) && c.pcb && Busy(p) && (c.msgs[id].both ==> p.Close?)
    ensures Good(Occupy(c, p, id))
  {
  }

  /** The operation in progress ends, and perhaps the pcb with it. */
  lemma CompleteGood(c: Conn, err: Err, pcb: bool)
    requires Good(c) && c.current.Some? && (pcb && c.msgs[c.current.value].both ==> !err.Ok?)
    ensures Good(Complete(c, err).(pcb := pcb))
  {
  }

  lemma CloseInternalGood(c: Conn, tcp: Err, other: bool)
    requires Good(c) && c.state.Close?
    ensures Good(CloseInternal(c, tcp, other))
  {
    var m := c.msgs[c.current.value];
    var shutClose := m.both || other;
    var r := CloseResult(tcp, shutClose, m.polls);
    if r.Some? { CompleteGood(c, r.value, !(r.value.Ok? && shutClose)); }
  }

  /** Every message and every callback keeps the invariant. */
  lemma NextGood(c: Conn, e: Event)
    requires Good(c) && Enabled(c, e)
    ensures Good(Next(c, e))
  {
    hide DoWrite, DoClose, DoDelconn, DoConnect, Connected, Sent, Poll, ErrTcp;
    match e
    case PostWrite(done) => DoWriteGood(c, done);
    case PostClose(both, polls, tcp, other) => DoCloseGood(c, both, polls, tcp, other);
    case PostDelete(polls, tcp) => DelconnGood(c, polls, tcp);
    case PostConnect(tcp) => DoConnectGood(c, tcp);
    case OnConnected(err) => ConnectedGood(c, err);
    case OnSent(done, tcp, other) => SentGood(c, done, tcp, other);
    case OnPoll(done, tcp, other) => PollGood(c, done, tcp, other);
    case OnError(err) => ErrTcpGood(c, err);
    case StartListen =>
  }

  lemma DoWriteGood(c: Conn, done: Option<Err>)
    requires Good(c)
    ensures Good(DoWrite(c, done))
  {
    hide Good, GoodBut, Ack, Occupy, Complete;
    var c1, id := Post(c, 0, false), |c.msgs|;
    PostGood(c, 0, false);
    if c.pending.Some? {
      ForgetGood(c1, id);
      AckGood(c1.(pending := None), id, c.pending.value);
    } else if !c.state.Idle? {
      AckGood(c1, id, InProgress);
    } else if c.pcb {
      OccupyGood(c1, Write, id);
      OccupyFacts(c1, Write, id);
      if done.Some? { CompleteGood(Occupy(c1, Write, id), done.value, true); }
    } else {
      AckGood(c1, id, NotConnected);
    }
  }

  lemma ForgetGood(c: Conn, id: nat)
    requires GoodBut(c, id)
    ensures GoodBut(c.(pending := None), id)
  {
  }

  lemma OccupyFacts(c: Conn, p: Phase, id: nat)
    requires id < |c.msgs|
    ensures var c' := Occupy(c, p, id); c'.current == Some(id) && c'.msgs == c.msgs && c'.pcb == c.pcb
    ensures forall err :: var c' := Complete(Occupy(c, p, id), err); c'.pcb == c.pcb && c'.(pcb := c.pcb) == c'
  {
  }

  lemma DoConnectGood(c: Conn, tcp: Err)
    requires Good(c)
    ensures Good(DoConnect(c, tcp))
  {
    hide Good, GoodBut, Ack, Occupy;
    var c1, id := Post(c, 0, false), |c.msgs|;
    PostGood(c, 0, false);
    if !c.pcb { AckGood(c1, id, Closed); }
    else if c.state.Connect? { AckGood(c1, id, Already); }
    else if !c.state.Idle? { AckGood(c1, id, IsConn); }
    else if tcp.Ok? { OccupyGood(c1, Connect, id); }
    else { AckGood(c1, id, tcp); }
  }

  lemma ConnectedGood(c: Conn, err: Err)
    requires Good(c) && c.state.Connect?
    ensures Good(Connected(c, err))
  {
    CompleteGood(c, err, c.pcb);
  }

  lemma SentGood(c: Conn, done: Option<Err>, tcp: Err, other: bool)
    requires Good(c)
    ensures Good(Sent(c, done, tcp, other))
  {
    if c.state.Close? { CloseInternalGood(c, tcp, other); }
    if c.state.Write? && done.Some? { CompleteGood(c, done.value, c.pcb); }
  }

  lemma ErrTcpGood(c: Conn, err: Err)
    requires Good(c)
    ensures Good(ErrTcp(c, err))
  {
  }

  lemma DoCloseGood(c: Conn, both: bool, polls: nat, tcp: Err, other: bool)
    requires Good(c)
    ensures Good(DoClose(c, both, polls, tcp, other))
  {
    var c1, id := Post(c, polls, both), |c.msgs|;
    PostGood(c, polls, both);
    hide Good, GoodBut, Ack, CloseInternal;
    if c.pcb && (both || !c.state.Listen?) {
      if c.state.Connect? { AckGood(c1, id, NotConnected); }
      else if c.state.Write? { AckGood(c1, id, InProgress); }
      else {
        OccupyGood(c1, Close, id);
        CloseInternalGood(Occupy(c1, Close, id), tcp, other);
      }
    } else {
      AckGood(c1, id, NotConnected);
    }
  }

  lemma DelconnGood(c: Conn, polls: nat, tcp: Err)
    requires Good(c)
    ensures Good(DoDelconn(c, polls, tcp))
  {
    var c1, id := Post(c, polls, true), |c.msgs|;
    PostGood(c, polls, true);
    hide Good, GoodBut, Ack, CloseInternal;
    if Busy(c.state) { AckGood(c1, id, InProgress); }
    else if c.pcb {
      OccupyGood(c1, Close, id);
      CloseInternalGood(Occupy(c1, Close, id), tcp, false);
    } else { AckGood(c1, id, Ok); }
  }

  /** The counting down of polls_left. */
  function Polled(c: Conn): Conn
    requires c.current.Some? && c.current.value < |c.msgs|
  {
    var m := c.msgs[c.current.value];
    c.(msgs := c.msgs[c.current.value := m.(polls := if m.polls > 0 then m.polls - 1 else 0)])
  }

  lemma PolledGood(c: Conn)
    requires Good(c) && c.state.Close?
    ensures Good(Polled(c))
  {
  }

  lemma PollGood(c: Conn, done: Option<Err>, tcp: Err, other: bool)
    requires Good(c)
    ensures Good(Poll(c, done, tcp, other))
  {
    if c.state.Close? {
      PolledGood(c);
      CloseInternalGood(Polled(c), tcp, other);
    } else if c.state.Write? && done.Some? {
      CompleteGood(c, done.value, c.pcb);
    }
  }

  // ---- runs

  ghost predicate Moves(c: Conn, e: Event, c': Conn) {
    Good(c) ==> Enabled(c, e) && c' == Next(c, e)
  }

  ghost predicate IsTrace(cs: seq<Conn>, es: seq<Event>) {
    && |cs| == |es| + 1 && cs[0].state.Idle? && cs[0].current.None? && cs[0].msgs == [] && cs[0].lost == {}
    && forall i {:trigger es[i]} :: 0 <= i < |es| ==> Moves(cs[i], es[i], cs[i + 1])
  }

  lemma {:induction false} TraceGood(cs: seq<Conn>, es: seq<Event>, i: nat)
    requires IsTrace(cs, es) && i <= |es|
    ensures Good(cs[i])
  {
    hide Next;
    if i > 0 {
      TraceGood(cs, es, i - 1);
      assert Moves(cs[i - 1], es[i - 1], cs[i]);
      NextGood(cs[i - 1], es[i - 1]);
    }
  }

  /** At any moment of any run, every message posted is the one in progress, or has been answered exactly once,
      with its error stored, or has lost its place and not been answered; one is in progress exactly in the states
      WRITE, CLOSE and CONNECT; and after a successful close of both directions the pcb is gone for good. */
  lemma AnsweredOnce(cs: seq<Conn>, es: seq<Event>, i: nat, id: nat)
    requires IsTrace(cs, es) && i <= |es| && id < |cs[i].msgs|
    ensures cs[i].current.Some? <==> Busy(cs[i].state)
    ensures cs[i].current == Some(id) ==> cs[i].msgs[id].signals == 0 && id !in cs[i].lost
    ensures cs[i].current != Some(id) && id !in cs[i].lost ==> cs[i].msgs[id].signals == 1 && cs[i].msgs[id].err.Some?
    ensures id in cs[i].lost ==> cs[i].msgs[id].signals == 0
    ensures ClosedBoth(cs[i].msgs[id]) ==> !cs[i].pcb
  {
    TraceGood(cs, es, i);
  }

  /** Message id is being closed, and event e is another close. */
  predicate Displaces(c: Conn, e: Event, id: nat) {
    e.PostClose? && c.state.Close? && c.current == Some(id)
  }

  lemma LostStep(c: Conn, e: Event, id: nat)
    requires Good(c) && Enabled(c, e)
    ensures id in Next(c, e).lost <==> id in c.lost || Displaces(c, e, id)
  {
  }

  /** A thread is never woken exactly when another close is posted while its own close is in progress: it has
      then lost its place for the rest of the run. */
  lemma {:induction false} LostIff(cs: seq<Conn>, es: seq<Event>, i: nat, id: nat)
    requires IsTrace(cs, es) && i <= |es|
    ensures id in cs[i].lost <==> exists k {:trigger es[k]} :: 0 <= k < i && Displaces(cs[k], es[k], id)
  {
    hide Next, Displaces;
    if i > 0 {
      LostIff(cs, es, i - 1, id);
      TraceGood(cs, es, i - 1);
      assert Moves(cs[i - 1], es[i - 1], cs[i]);
      LostStep(cs[i - 1], es[i - 1], id);
    }
  }

  /** The assertion of lwip_netconn_do_close that there is no current_msg fails exactly then; and for example after a
      close that found no memory. */
  lemma SecondClose(c: Conn)
    requires Good(c)
    ensures c.pcb && !c.state.Connect? && !c.state.Write? ==> (c.current.Some? <==> c.state.Close?)
  {
  }

  lemma SecondCloseExample()
    ensures var c0 := Conn(Idle, None, true, None, [], {});
            var e := PostClose(true, 3, Mem, false);
            && Good(c0) && Good(Next(c0, e)) && Displaces(Next(c0, e), e, 0)
            && 0 in Next(Next(c0, e), e).lost && Next(Next(c0, e), e).msgs[0].signals == 0
  {
    var c0, e := Conn(Idle, None, true, None, [], {}), PostClose(true, 3, Mem, false);
    NextGood(c0, e);
  }

  // ---- a close comes to an end

  /** The close of message id is in progress, with this many polls left. */
  predicate Closing(c: Conn, id: nat, polls: int) {
    c.state.Close? && c.current == Some(id) && id < |c.msgs| && c.msgs[id].polls == polls
  }

  /** Each step leaves the close in progress, with one poll less after a poll, or ends it. */
  lemma CloseStep(c: Conn, e: Event, id: nat, polls: int)
    requires Good(c) && Enabled(c, e) && Closing(c, id, polls)
    ensures var c' := Next(c, e);
            && id < |c'.msgs|
            && (Displaces(c, e, id) || Answered(c'.msgs[id]) || (Closing(c', id, if e.OnPoll? then polls - 1 else polls) && (e.OnPoll? ==> polls > 1)))
  {
  }

  function Polls(es: seq<Event>, i: nat, j: nat): nat
    requires i <= j <= |es|
    decreases j
  {
    if i == j then 0 else Polls(es, i, j - 1) + if es[j - 1].OnPoll? then 1 else 0
  }

  predicate Untouched(c: Conn, c': Conn, id: nat)
    requires id < |c.msgs|
  {
    id < |c'.msgs| && c'.msgs[id] == c.msgs[id] && c'.current != Some(id)
  }

  /** One attempt to close touches only the message in progress. */
  lemma CloseTouches(c: Conn, tcp: Err, other: bool, id: nat)
    requires Working(c, Close) && id < |c.msgs| && c.current != Some(id)
    ensures Untouched(c, CloseInternal(c, tcp, other), id)
  {
  }

  lemma DoCloseTouches(c: Conn, both: bool, polls: nat, tcp: Err, other: bool, id: nat)
    requires id < |c.msgs| && c.current != Some(id)
    ensures Untouched(c, DoClose(c, both, polls, tcp, other), id) && Untouched(c, DoDelconn(c, polls, tcp), id)
  {
    hide CloseInternal;
    if c.pcb {
      CloseTouches(Occupy(Post(c, polls, both), Close, |c.msgs|), tcp, other, id);
      CloseTouches(Occupy(Post(c, polls, true), Close, |c.msgs|), tcp, false, id);
    }
  }

  lemma PollTouches(c: Conn, done: Option<Err>, tcp: Err, other: bool, id: nat)
    requires id < |c.msgs| && c.current != Some(id) && (Busy(c.state) ==> Working(c, c.state))
    ensures Untouched(c, Poll(c, done, tcp, other), id) && Untouched(c, Sent(c, done, tcp, other), id)
  {
    hide CloseInternal;
    if c.state.Close? {
      CloseTouches(c, tcp, other, id);
      CloseTouches(Polled(c), tcp, other, id);
    }
  }

  /** What has been answered stays answered, and what has lost its place stays unanswered. */
  lemma AnsweredStays(c: Conn, e: Event, id: nat)
    requires Good(c) && Enabled(c, e) && id < |c.msgs| && c.current != Some(id)
    ensures Untouched(c, Next(c, e), id)
  {
    assert Busy(c.state) ==> Working(c, c.state);
    match e {
      case PostClose(both, polls, tcp, other) => DoCloseTouches(c, both, polls, tcp, other, id);
      case PostDelete(polls, tcp) => DoCloseTouches(c, true, polls, tcp, false, id);
      case OnSent(done, tcp, other) => PollTouches(c, done, tcp, other, id);
      case OnPoll(done, tcp, other) => PollTouches(c, done, tcp, other, id);
      case _ =>
    }
  }

  /** However often TCP runs out of memory, a close is over after as many polls as its message had left, unless it
      loses its place. */
  lemma {:induction false} CloseEnds(cs: seq<Conn>, es: seq<Event>, i: nat, j: nat, id: nat, polls: nat)
    requires IsTrace(cs, es) && i <= j <= |es| && Closing(cs[i], id, polls)
    ensures id < |cs[j].msgs|
    ensures Answered(cs[j].msgs[id]) || id in cs[j].lost || Closing(cs[j], id, polls - Polls(es, i, j))
    ensures Polls(es, i, j) >= polls && polls > 0 ==> Answered(cs[j].msgs[id]) || id in cs[j].lost
    decreases j
  {
    hide Next, Displaces;
    if i < j {
      CloseEnds(cs, es, i, j - 1, id, polls);
      TraceGood(cs, es, j - 1);
      assert Moves(cs[j - 1], es[j - 1], cs[j]);
      LostStep(cs[j - 1], es[j - 1], id);
      if Answered(cs[j - 1].msgs[id]) || id in cs[j - 1].lost {
        AnsweredStays(cs[j - 1], es[j - 1], id);
      } else {
        CloseStep(cs[j - 1], es[j - 1], id, polls - Polls(es, i, j - 1));
      }
    }
  }

  // ---- why a close is answered

  predicate Attempt(e: Event) {
    e.OnSent? || e.OnPoll?
  }

  /** What an attempt to close with this result of TCP answers, if it does: the result itself, unless memory is short; then,
      with no polls left, the connection is aborted when both directions are closed, and the attempt fails otherwise. */
  predicate CloseAnswers(tcp: Err, close: bool, polls: int, err: Err) {
    if tcp.Mem? then polls == 0 && err == (if close then Ok else Mem) else err == tcp
  }

  /** Polls left after the event. */
  function PollsLeft(e: Event, polls: nat): nat {
    if e.OnPoll? && polls > 0 then polls - 1 else polls
  }

  /** A close in progress is answered exactly when TCP reports an error, or comes and either has memory or no polls are left;
      and the pcb is gone afterwards exactly when the connection is closed after all. */
  lemma CloseTurns(c: Conn, e: Event, id: nat, polls: nat)
    requires Good(c) && Enabled(c, e) && Closing(c, id, polls) && !Displaces(c, e, id)
    ensures var c' := Next(c, e);
            && id < |c'.msgs|
            && (Answered(c'.msgs[id]) <==> e.OnError? || (Attempt(e) && (!e.tcp.Mem? || PollsLeft(e, polls) == 0)))
            && (Answered(c'.msgs[id]) && e.OnError? ==> c'.msgs[id].err == Some(Ok) && !c'.pcb)
            && (Answered(c'.msgs[id]) && Attempt(e) ==>
                  var close := c.msgs[id].both || e.other;
                  && CloseAnswers(e.tcp, close, PollsLeft(e, polls), c'.msgs[id].err.value)
                  && (c'.pcb <==> !(close && c'.msgs[id].err.value.Ok?)))
  {
    assert Working(c, Close) && c.msgs[id].err.None? && c.msgs[id].signals == 0;
    match e {
      case OnSent(done, tcp, other) =>
      case OnPoll(done, tcp, other) =>
      case OnError(err) =>
      case PostDelete(polls, tcp) =>
      case _ =>
    }
  }

  /** A close or a delete is refused when it is posted. */
  predicate RefusedClose(c: Conn, e: Event, err: Err) {
    match e
    case PostClose(both, _, _, _) =>
      if !c.pcb || (!both && c.state.Listen?) || c.state.Connect? then err.NotConnected? else c.state.Write? && err.InProgress?
    case PostDelete(_, _) => if Busy(c.state) then err.InProgress? else !c.pcb && err.Ok?
    case _ => false
  }

  predicate PostsClose(e: Event) {
    e.PostClose? || e.PostDelete?
  }

  /** A close posted is refused, or tried at once; then it is answered, or in progress. */
  lemma CloseBegins(c: Conn, e: Event)
    requires Good(c) && Enabled(c, e) && PostsClose(e)
    ensures var c', id := Next(c, e), |c.msgs|;
            && |c'.msgs| == id + 1 && id !in c'.lost && c'.msgs[id].polls == e.polls && c'.msgs[id].both == (e.PostDelete? || e.both)
            && (c'.msgs[id].err.None? ==> Closing(c', id, e.polls) && e.polls > 0 && e.tcp.Mem?)
            && (c'.msgs[id].err.Some? ==>
                  || RefusedClose(c, e, c'.msgs[id].err.value)
                  || CloseAnswers(e.tcp, if e.PostClose? then e.both || e.other else true, e.polls, c'.msgs[id].err.value))
            && ((exists err :: RefusedClose(c, e, err)) ==> c'.msgs[id].err.Some? && RefusedClose(c, e, c'.msgs[id].err.value))
  {
  }

  /** In this step the close is answered with err: TCP has reported an error, or it was tried, with a result that answers it. */
  predicate EndsClose(e: Event, both: bool, polls: nat, err: Err) {
    match e
    case OnError(_) => err.Ok?
    case OnSent(_, tcp, other) => CloseAnswers(tcp, both || other, polls, err)
    case OnPoll(_, tcp, other) => CloseAnswers(tcp, both || other, polls, err)
    case PostClose(_, _, tcp, other) => CloseAnswers(tcp, both || other, polls, err)
    case PostDelete(_, tcp) => CloseAnswers(tcp, true, polls, err)
    case _ => false
  }

  /** In every run a close that has not been answered is in progress or has lost its place; one that has been answered was
      refused when it was posted, or is answered by what TCP says. */
  lemma {:induction false} WhyClosed(cs: seq<Conn>, es: seq<Event>, k: nat, i: nat) returns (m: nat)
    requires IsTrace(cs, es) && k < i <= |es| && PostsClose(es[k])
    ensures |cs[k].msgs| < |cs[i].msgs| && k <= m < i
    ensures var c, id := cs[i], |cs[k].msgs|;
            && c.msgs[id].both == (es[k].PostDelete? || es[k].both)
            && (c.msgs[id].err.None? ==> id in c.lost || (c.state.Close? && c.current == Some(id)))
            && (c.msgs[id].err.Some? ==>
                  || (m == k && RefusedClose(cs[k], es[k], c.msgs[id].err.value))
                  || EndsClose(es[m], c.msgs[id].both, c.msgs[id].polls, c.msgs[id].err.value))
    decreases i
  {
    hide Next, Good, RefusedClose, CloseAnswers, Displaces;
    TraceGood(cs, es, i - 1);
    var c, e, id := cs[i - 1], es[i - 1], |cs[k].msgs|;
    assert Moves(c, e, cs[i]);
    m := k;
    if k + 1 == i {
      CloseBegins(c, e);
    } else {
      m := WhyClosed(cs, es, k, i - 1);
      LostStep(c, e, id);
      CloseKinds(c, e, id);
      if c.current == Some(id) {
        CurrentOpen(c, id);
        if !Displaces(c, e, id) {
          CloseTurns(c, e, id, c.msgs[id].polls);
          CloseStays(c, e, id);
        } else {
          Displaced(c, e, id);
        }
        m := i - 1;
      } else {
        AnsweredStays(c, e, id);
      }
    }
  }

  lemma CurrentOpen(c: Conn, id: nat)
    requires Good(c) && c.current == Some(id)
    ensures id < |c.msgs| && c.msgs[id].err.None? && id !in c.lost
  {
  }

  /** What a message asks for never changes. */
  lemma CloseKinds(c: Conn, e: Event, id: nat)
    requires Good(c) && Enabled(c, e) && id < |c.msgs|
    ensures id < |Next(c, e).msgs| && Next(c, e).msgs[id].both == c.msgs[id].both
  {
    if c.current != Some(id) {
      hide Next;
      AnsweredStays(c, e, id);
    } else {
      assert Working(c, c.state);
    }
  }

  lemma Displaced(c: Conn, e: Event, id: nat)
    requires Good(c) && Enabled(c, e) && Displaces(c, e, id) && id < |c.msgs|
    ensures id < |Next(c, e).msgs| && Next(c, e).msgs[id] == c.msgs[id] && c.msgs[id].err.None? && id in Next(c, e).lost
  {
    assert Working(c, Close);
  }

  /** A close in progress that is not answered stays in progress. */
  lemma CloseStays(c: Conn, e: Event, id: nat)
    requires Good(c) && Enabled(c, e) && c.state.Close? && c.current == Some(id) && id < |c.msgs| && !Displaces(c, e, id)
    ensures var c' := Next(c, e);
            && id < |c'.msgs| && (c'.msgs[id].err.Some? <==> Answered(c'.msgs[id]))
            && (c'.msgs[id].err.None? ==> c'.state.Close? && c'.current == Some(id))
            && c'.msgs[id].polls == PollsLeft(e, c.msgs[id].polls)
  {
    assert Working(c, Close) && c.msgs[id].err.None? && c.msgs[id].signals == 0;
  }
}

/** The same functions at work in place: a message is an object that its thread and the netconn share. */
module Netconn {
  import opened Basics
  import opened Errors
  import opened NetconnModel

  class ApiMsg {
    var err: Option<Err>
    /** How often the semaphore was signalled. */
    var signals: nat
    var polls: nat
    const both: bool

    constructor (polls: nat, both: bool)
      ensures Value() == Msg(None, 0, polls, both)
    {
      err, signals, this.polls, this.both := None, 0, polls, both;
    }

    ghost function Value(): Msg
      reads this
    {
      Msg(err, signals, polls, both)
    }

    /** sys_sem_signal: the thread that waits will read err. */
    method Signal()
      requires err.Some?
      modifies `signals
      ensures signals == old(signals) + 1
    {
      signals := signals + 1;
    }
  }

  class TcpNetconn {
    var state: Phase
    var current: ApiMsg?
    var pcb: bool
    var pending: Option<Err>
    /** All messages posted, and the netconn as a value. */
    ghost var posted: seq<ApiMsg>
    ghost var now: Conn

    /** The objects are what `now` says, and no message was posted twice. */
    ghost predicate Linked()
      reads this, posted
    {
      && now.state == state && now.pcb == pcb && now.pending == pending && |now.msgs| == |posted|
      && (forall i {:trigger posted[i]} :: 0 <= i < |posted| ==> now.msgs[i] == posted[i].Value())
      && (forall i, j {:trigger posted[i], posted[j]} :: 0 <= i < j < |posted| ==> posted[i] != posted[j])
      && (current == null <==> now.current.None?)
      && (now.current.Some? ==> now.current.value < |posted| && posted[now.current.value] == current)
    }

    ghost predicate Valid()
      reads this, posted
    {
      Linked() && Good(now)
    }

    constructor ()
      ensures Valid() && posted == [] && now == Conn(Idle, None, true, None, [], {})
    {
      state, current, pcb, pending := Idle, null, true, None;
      posted, now := [], Conn(Idle, None, true, None, [], {});
    }

    /** A thread posts a message; the stack's thread takes it up. */
    ghost method Take(msg: ApiMsg)
      requires Linked() && msg !in posted && msg.err.None? && msg.signals == 0
      modifies `posted, `now
      ensures Linked() && posted == old(posted) + [msg] && now == Post(old(now), msg.polls, msg.both)
    {
      posted := posted + [msg];
      now := Post(now, msg.polls, msg.both);
    }

    /** TCPIP_APIMSG_ACK */
    method Acknowledge(msg: ApiMsg, err: Err, ghost id: nat)
      requires Linked() && id < |posted| && posted[id] == msg
      modifies msg, `now
      ensures Linked() && now == Ack(old(now), id, err) && msg.err == Some(err) && msg.signals == old(msg.signals) + 1
    {
      msg.err := Some(err);
      msg.Signal();
      now := Ack(now, id, err);
    }

    /** current_msg and state are set. */
    method SetCurrent(p: Phase, msg: ApiMsg, ghost id: nat)
      requires Linked() && id < |posted| && posted[id] == msg
      modifies `state, `current, `now
      ensures Linked() && now == Occupy(old(now), p, id) && current == msg && state == p
    {
      state, current := p, msg;
      now := Occupy(now, p, id);
    }

    /** The message in progress is answered. */
    method Finish(err: Err)
      requires Linked() && current != null
      modifies `state, `current, `now, current
      ensures Linked() && current == null && now == Complete(old(now), err)
      ensures old(current).err == Some(err) && old(current).signals == old(current.signals) + 1
    {
      var msg := current;
      ghost var id := now.current.value;
      current := null;
      state := Idle;
      now := now.(state := Idle, current := None);
      Acknowledge(msg, err, id);
    }

    /** lwip_netconn_do_writemore */
    method DoWriteMore(done: Option<Err>)
      requires Linked() && Working(now, Write)
      modifies `state, `current, `now, current
      ensures Linked() && now == WriteMore(old(now), done)
      ensures done.Some? ==> current == null && old(current).err == done && old(current).signals == old(current.signals) + 1
      ensures done.None? ==> current == old(current)
    {
      if done.Some? {
        Finish(done.value);
      }
    }

    /** lwip_netconn_do_close_internal: the message in progress is answered unless there is no memory and there are polls
        left; nothing else is touched. */
    method DoCloseInternal(tcp: Err, other: bool)
      requires Linked() && Working(now, Close)
      modifies `state, `current, `now, `pcb, current
      ensures Linked() && now == CloseInternal(old(now), tcp, other)
      ensures old(current).both == old(current.both) && old(current).polls == old(current.polls)
      ensures tcp.Mem? && old(current.polls) > 0 ==> current == old(current) && pcb && current.Value() == old(current.Value())
      ensures !(tcp.Mem? && old(current.polls) > 0) ==>
                && current == null && old(current).signals == old(current.signals) + 1
                && old(current).err == Some(if tcp.Mem? && (old(current).both || other) then Ok else tcp)
                && (!pcb <==> old(current).err == Some(Ok) && (old(current).both || other))
    {
      var msg := current;
      var finished, err, shutClose := false, tcp, msg.both || other;
      if err.Ok? {
        finished := true;
      } else if err.Mem? {
        if msg.polls == 0 {
          finished := true;
          if shutClose {
            err := Ok;
          }
        }
      } else {
        finished := true;
      }
      if finished {
        Finish(err);
        if err.Ok? && shutClose {
          pcb := false;
          now := now.(pcb := false);
        }
      }
    }

    /** The message is answered at once, without touching what is in progress: it is refused, or nothing is to be waited
        for. Or it takes its place as current_msg. */
    ghost predicate Settled(msg: ApiMsg)
      reads this, msg
    {
      (current == msg && msg.signals == 0) || (current != msg && msg.signals == 1 && msg.err.Some?)
    }

    /** lwip_netconn_do_write. No message but its own can change. */
    method HandleWrite(msg: ApiMsg, done: Option<Err>)
      requires Valid() && msg !in posted && msg.Value() == Msg(None, 0, 0, false)
      modifies this, msg
      ensures Valid() && posted == old(posted) + [msg] && now == DoWrite(old(now), done)
      ensures Settled(msg) && (old(current) != null ==> current == old(current)) && pcb == old(pcb)
      // it is in progress exactly if the netconn was idle, without pending error, and TCP did not take everything
      ensures current == msg <==> old(pending).None? && old(state).Idle? && pcb && done.None?
      ensures current != msg ==> msg.err == if old(pending).Some? then old(pending)
                                            else if !old(state).Idle? then Some(InProgress)
                                            else if pcb then done else Some(NotConnected)
    {
      DoWriteGood(now, done);
      BusyFacts(now);
      ghost var id := |posted|;
      Take(msg);
      hide Good;
      if pending.Some? {
        var err := pending.value;
        pending, now := None, now.(pending := None);
        Acknowledge(msg, err, id);
      } else if !state.Idle? {
        Acknowledge(msg, InProgress, id);
      } else if pcb {
        SetCurrent(Write, msg, id);
        DoWriteMore(done);
      } else {
        Acknowledge(msg, NotConnected, id);
      }
    }

    /** The message becomes current_msg, and a first attempt to close is made. */
    method FirstAttempt(msg: ApiMsg, tcp: Err, other: bool, ghost id: nat)
      requires Linked() && id < |posted| && posted[id] == msg && msg.signals == 0 && pcb
      modifies `state, `current, `now, `pcb, msg
      ensures Linked() && Working(Occupy(old(now), Close, id), Close) && now == CloseInternal(Occupy(old(now), Close, id), tcp, other)
      ensures Settled(msg) && msg.polls == old(msg.polls) && now.lost == Occupy(old(now), Close, id).lost
      ensures current == msg <==> tcp.Mem? && msg.polls > 0
      ensures current == msg ==> msg.err == old(msg.err)
      ensures current != msg ==> current == null && msg.err == Some(if tcp.Mem? && (msg.both || other) then Ok else tcp)
      ensures pcb <==> !(current != msg && msg.err == Some(Ok) && (msg.both || other))
    {
      SetCurrent(Close, msg, id);
      CloseKeepsLost(now, tcp, other);
      hide CloseInternal;
      DoCloseInternal(tcp, other);
    }

    /** The message gets as far as an attempt to close. */
    ghost predicate Attempts(both: bool)
      reads this
    {
      pcb && (both || !state.Listen?) && !state.Connect? && !state.Write?
    }

    /** lwip_netconn_do_close */
    method HandleClose(msg: ApiMsg, tcp: Err, other: bool)
      requires Valid() && msg !in posted && msg.err.None? && msg.signals == 0
      modifies this, msg
      ensures Valid() && posted == old(posted) + [msg] && now == DoClose(old(now), msg.both, old(msg.polls), tcp, other)
      ensures Settled(msg) && msg.polls == old(msg.polls)
      // it is in progress exactly if the attempt is to be repeated
      ensures current == msg <==> old(Attempts(msg.both)) && tcp.Mem? && msg.polls > 0
      ensures current != msg && old(Attempts(msg.both)) ==> msg.err == Some(if tcp.Mem? && (msg.both || other) then Ok else tcp)
      ensures !old(Attempts(msg.both)) ==> msg.err == Some(if old(pcb) && old(state).Write? then InProgress else NotConnected)
      ensures pcb <==> old(pcb) && !(old(Attempts(msg.both)) && msg.err == Some(Ok) && (msg.both || other))
      // a write or connect in progress stays; a close in progress loses its place
      ensures !old(state).Close? && old(current) != null ==> current == old(current)
      ensures old(state).Close? ==> current != old(current) && old(now.current.value) in now.lost
    {
      hide Good, CloseInternal;
      DoCloseGood(now, msg.both, msg.polls, tcp, other);
      BusyFacts(now);
      ghost var id := |posted|;
      Take(msg);
      if pcb && (msg.both || !state.Listen?) {
        if state.Connect? {
          Acknowledge(msg, NotConnected, id);
        } else if state.Write? {
          Acknowledge(msg, InProgress, id);
        } else {
          FirstAttempt(msg, tcp, other, id);
        }
      } else {
        Acknowledge(msg, NotConnected, id);
      }
    }

    /** lwip_netconn_do_delconn */
    method HandleDelconn(msg: ApiMsg, tcp: Err)
      requires Valid() && msg !in posted && msg.err.None? && msg.signals == 0 && msg.both
      modifies this, msg
      ensures Valid() && posted == old(posted) + [msg] && now == DoDelconn(old(now), old(msg.polls), tcp)
      ensures Settled(msg) && msg.polls == old(msg.polls)
      // what is in progress is not disturbed
      ensures old(current) != null ==> current == old(current) && pcb && msg.err == Some(InProgress)
      ensures old(current) == null && !old(pcb) ==> !pcb && msg.err == Some(Ok)
      ensures old(current) == null && old(pcb) ==>
                && (current == msg <==> tcp.Mem? && msg.polls > 0)
                && (current != msg ==> msg.err == Some(if tcp.Mem? then Ok else tcp))
                && (pcb <==> msg.err != Some(Ok))
    {
      DelconnGood(now, msg.polls, tcp);
      BusyFacts(now);
      ghost var id := |posted|;
      Take(msg);
      hide Good, CloseInternal;
      if Busy(state) {
        Acknowledge(msg, InProgress, id);
      } else if pcb {
        FirstAttempt(msg, tcp, false, id);
      } else {
        Acknowledge(msg, Ok, id);
      }
    }

    /** lwip_netconn_do_connect */
    method HandleConnect(msg: ApiMsg, tcp: Err)
      requires Valid() && msg !in posted && msg.Value() == Msg(None, 0, 0, false)
      modifies this, msg
      ensures Valid() && posted == old(posted) + [msg] && now == DoConnect(old(now), tcp)
      ensures Settled(msg) && (old(current) != null ==> current == old(current)) && pcb == old(pcb)
      // it is in progress exactly if the netconn was idle and TCP has begun to connect
      ensures current == msg <==> pcb && old(state).Idle? && tcp.Ok?
      ensures current != msg ==> msg.err == Some(if !pcb then Closed else if old(state).Connect? then Already
                                                 else if !old(state).Idle? then IsConn else tcp)
    {
      DoConnectGood(now, tcp);
      BusyFacts(now);
      ghost var id := |posted|;
      Take(msg);
      hide Good;
      if !pcb {
        Acknowledge(msg, Closed, id);
      } else if state.Connect? {
        Acknowledge(msg, Already, id);
      } else if !state.Idle? {
        Acknowledge(msg, IsConn, id);
      } else if tcp.Ok? {
        SetCurrent(Connect, msg, id);
      } else {
        Acknowledge(msg, tcp, id);
      }
    }

    /** A callback leaves the message in progress where it is, or answers it; there is no other it could touch. */
    ghost predicate Handled(was: ApiMsg?)
      reads this, was
    {
      || (current == was && (was != null ==> was.signals == 0))
      || (was != null && current == null && was.signals == 1 && was.err.Some?)
    }

    /** poll_tcp */
    method OnPoll(done: Option<Err>, tcp: Err, other: bool)
      requires Valid()
      modifies this, current
      ensures Valid() && posted == old(posted) && now == Poll(old(now), done, tcp, other)
      ensures Handled(old(current))
      ensures old(state).Write? ==> (current == null <==> done.Some?)
      // a close goes on only without memory and with polls left, and then with one less
      ensures old(state).Close? ==> (current != null <==> tcp.Mem? && old(current.polls) > 1)
      ensures old(state).Close? && current != null ==> current.polls == old(current.polls) - 1
    {
      PollGood(now, done, tcp, other);
      BusyFacts(now);
      hide Good, CloseInternal;
      if state.Write? {
        DoWriteMore(done);
      } else if state.Close? {
        CountDown();
        DoCloseInternal(tcp, other);
      }
    }

    method CountDown()
      requires Linked() && current != null
      modifies current, `now
      ensures Linked() && now == Polled(old(now)) && current.signals == old(current.signals) && current.err == old(current.err)
      ensures current.polls == if old(current.polls) > 0 then old(current.polls) - 1 else 0
    {
      ghost var c := Polled(now);
      if current.polls > 0 {
        current.polls := current.polls - 1;
      }
      now := c;
    }

    /** sent_tcp */
    method OnSent(done: Option<Err>, tcp: Err, other: bool)
      requires Valid()
      modifies this, current
      ensures Valid() && posted == old(posted) && now == Sent(old(now), done, tcp, other)
      ensures Handled(old(current))
      ensures old(state).Write? ==> (current == null <==> done.Some?)
      ensures old(state).Close? ==> (current != null <==> tcp.Mem? && old(current.polls) > 0)
    {
      SentGood(now, done, tcp, other);
      BusyFacts(now);
      hide Good, CloseInternal;
      if state.Write? {
        DoWriteMore(done);
      } else if state.Close? {
        DoCloseInternal(tcp, other);
      }
    }

    /** err_tcp: nobody is left waiting, and there is no pcb any more. */
    method OnError(err: Err)
      requires Valid()
      modifies this, current
      ensures Valid() && posted == old(posted) && now == ErrTcp(old(now), err)
      ensures current == null && !pcb && pending == Some(err)
      ensures old(current) != null ==> old(current).signals == 1 && old(current).err == Some(if old(state).Close? then Ok else err)
    {
      ErrTcpGood(now, err);
      BusyFacts(now);
      ghost var c := now;
      hide Good;
      pcb, pending := false, Some(err);
      var was := state;
      state := Idle;
      now := now.(pcb := false, pending := Some(err), state := Idle);
      if was.Write? || was.Close? || was.Connect? {
        var msg := current;
        current, now := null, now.(current := None);
        Acknowledge(msg, if was.Close? then Ok else err, c.current.value);
      }
    }

    /** lwip_netconn_do_connected */
    method OnConnected(err: Err)
      requires Valid() && state.Connect?
      modifies this, current
      ensures Valid() && posted == old(posted) && now == Connected(old(now), err)
      ensures current == null && old(current) != null && old(current).signals == 1 && old(current).err == Some(err)
    {
      ConnectedGood(now, err);
      BusyFacts(now);
      hide Good;
      Finish(err);
    }
  }

  lemma BusyFacts(c: Conn)
    requires Good(c)
    ensures c.current.Some? <==> Busy(c.state)
    ensures c.current.Some? ==> Working(c, c.state) && c.msgs[c.current.value].signals == 0
  {
  }

  lemma CloseKeepsLost(c: Conn, tcp: Err, other: bool)
    requires Working(c, Close)
    ensures CloseInternal(c, tcp, other).lost == c.lost
  {
  }
}
