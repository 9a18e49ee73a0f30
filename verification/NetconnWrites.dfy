/** The netconn machine with the bytes of its writes: what lwip_netconn_do_writemore makes of the vectors decides
    when a write is acknowledged, and with what. */
module NetconnWrites {
  import opened Basics
  import opened Errors
  import opened NetconnModel
  import V = VectorWrite

  /** writes: for every message posted, how far its vectors have been written, if it is a write. */
  datatype State = State(conn: Conn, writes: seq<Option<V.Msg>>)

  /** Submit: vectors are posted; Called: sent_tcp or poll_tcp comes. room, res, noRoute: what TCP answers if
      lwip_netconn_do_writemore runs. */
  datatype Step =
    | Submit(vs: seq<seq<Byte>>, room: nat, res: nat -> Err, noRoute: bool)
    | Called(poll: bool, room: nat, res: nat -> Err, noRoute: bool, tcp: Err, other: bool)
    | Else(e: Event)

  /** What a call of lwip_netconn_do_writemore that ends with r acknowledges the message with, if it does. */
  function Verdict(r: V.Step, noRoute: bool): Option<Err> {
    if noRoute && (r.err.Ok? || r.err.Mem?) then Some(Rte) else if V.Waits(r) then None else Some(r.err)
  }

  /** The write begins at once. */
  predicate Begins(c: Conn) {
    c.pending.None? && c.state.Idle? && c.pcb
  }

  /** The write in progress. */
  ghost predicate Writing(s: State, m: V.Msg) {
    && s.conn.state.Write? && s.conn.current.Some? && s.conn.current.value < |s.writes| && s.writes[s.conn.current.value] == Some(m)
    && V.Inv(m) && m.cnt > 0
  }

  /** Loops that do not end are no steps; an error callback brings an error. */
  ghost predicate Enabled(s: State, e: Step) {
    match e
    case Submit(vs, room, res, _) =>
      vs != [] && |V.Concat(vs)| > 0 && V.Inv(V.Start(vs)) && (Begins(s.conn) ==> V.Ends(V.Start(vs), room, false, res))
    case Called(_, room, res, _, _, _) =>
      s.conn.pcb && (s.conn.state.Write? ==> exists m :: Writing(s, m) && V.Ends(m, room, false, res))
    case Else(f) =>
      !f.PostWrite? && !f.OnSent? && !f.OnPoll? && NetconnModel.Enabled(s.conn, f) && (f.OnError? ==> !f.err.Ok?)
  }

  ghost function Callback(c: Conn, poll: bool, done: Option<Err>, tcp: Err, other: bool): Conn
    requires NetconnModel.Good(c)
  {
    if poll then Poll(c, done, tcp, other) else Sent(c, done, tcp, other)
  }

  ghost function Next(s: State, e: Step): State
    requires Good(s) && Enabled(s, e)
  {
    match e
    case Submit(vs, room, res, noRoute) =>
      if Begins(s.conn) then
        var r := V.Final(V.Start(vs), room, false, res);
        State(DoWrite(s.conn, Verdict(r, noRoute)), s.writes + [Some(r.m)])
      else State(DoWrite(s.conn, None), s.writes + [Some(V.Start(vs))])
    case Called(poll, room, res, noRoute, tcp, other) =>
      if s.conn.state.Write? then
        var id := s.conn.current.value;
        var r := V.Final(s.writes[id].value, room, false, res);
        State(Callback(s.conn, poll, Verdict(r, noRoute), tcp, other), s.writes[id := Some(r.m)])
      else State(Callback(s.conn, poll, None, tcp, other), s.writes)
    case Else(f) =>
      State(NetconnModel.Next(s.conn, f), if f.PostClose? || f.PostDelete? || f.PostConnect? then s.writes + [None] else s.writes)
  }

  /** Everything has been given to TCP, in order. */
  ghost predicate Written(m: V.Msg) {
    m.offset == m.len && m.sent == V.Concat(m.vectors)
  }

  /** A write acknowledged without error has written everything. */
  ghost predicate Acknowledged(c: Conn, writes: seq<Option<V.Msg>>) {
    |writes| == |c.msgs| && forall i {:trigger writes[i]} :: 0 <= i < |writes| && writes[i].Some? && c.msgs[i].err == Some(Ok) ==> Written(writes[i].value)
  }

  ghost predicate Good(s: State) {
    && NetconnModel.Good(s.conn) && Acknowledged(s.conn, s.writes)
    && (s.conn.pending.Some? ==> !s.conn.pending.value.Ok?)
    && (s.conn.state.Write? ==> exists m :: Writing(s, m))
    && (Busy(s.conn.state) && !s.conn.state.Write? ==> s.writes[s.conn.current.value].None?)
  }

  /** An error has its reason: there is no route, or tcp_write returned it and it is not just a lack of memory. */
  ghost predicate Justified(e: Err, res: nat -> Err, noRoute: bool) {
    e.Ok? || (e.Rte? && noRoute) || (!e.Mem? && V.Reported(res, e))
  }

  /** A call that acknowledges without error has written everything, and one that does not acknowledge leaves something to do. */
  lemma VerdictMeans(m: V.Msg, room: nat, res: nat -> Err, noRoute: bool)
    requires V.Inv(m) && m.cnt > 0 && V.Ends(m, room, false, res)
    ensures var r := V.Final(m, room, false, res);
            && V.Inv(r.m) && r.m.vectors == m.vectors
            && (Verdict(r, noRoute) == Some(Ok) ==> Written(r.m)) && (Verdict(r, noRoute).None? ==> r.m.cnt > 0)
            && (Verdict(r, noRoute).Some? ==> Justified(Verdict(r, noRoute).value, res, noRoute))
            && (noRoute ==> Verdict(r, noRoute).Some? && !Verdict(r, noRoute).value.Ok?)
  {
    hide V.Inv, V.Concat, V.Final;
    var r := V.Final(m, room, false, res);
    V.FinalMeans(m, room, false, res);
    V.SentIsPrefix(r.m);
    if r.m.cnt == 0 { V.AllWritten(r.m); }
  }

  lemma WriteGood(s: State, vs: seq<seq<Byte>>, room: nat, res: nat -> Err, noRoute: bool)
    requires Good(s) && Enabled(s, Submit(vs, room, res, noRoute))
    ensures Good(Next(s, Submit(vs, room, res, noRoute)))
  {
    hide V.Inv, V.Concat, V.Final, V.Ends, Written, NetconnModel.Good, DoWrite;
    var s' := Next(s, Submit(vs, room, res, noRoute));
    if Begins(s.conn) {
      var r := V.Final(V.Start(vs), room, false, res);
      VerdictMeans(V.Start(vs), room, res, noRoute);
      DoWriteGood(s.conn, Verdict(r, noRoute));
      BegunWrite(s.conn, Verdict(r, noRoute));
      if Verdict(r, noRoute).None? { assert Writing(s', r.m); }
    } else {
      DoWriteGood(s.conn, None);
      RefusedWrite(s.conn);
      CurrentStays(s.conn);
      if s.conn.state.Write? {
        var m :| Writing(s, m);
        assert Writing(s', m);
      }
    }
  }

  lemma BegunWrite(c: Conn, done: Option<Err>)
    requires Begins(c)
    ensures var c', id := DoWrite(c, done), |c.msgs|;
            && |c'.msgs| == |c.msgs| + 1 && c'.msgs[..|c.msgs|] == c.msgs && c'.msgs[id].err == done && c'.pending.None?
            && (if done.None? then c'.state.Write? && c'.current == Some(id) else c'.state.Idle?)
  {
  }

  /** A write that does not begin is answered with an error and leaves everything else alone. */
  lemma RefusedWrite(c: Conn)
    requires !Begins(c) && (c.pending.Some? ==> !c.pending.value.Ok?)
    ensures var c' := DoWrite(c, None);
            && c'.state == c.state && c'.current == c.current && |c'.msgs| == |c.msgs| + 1 && c'.msgs[..|c.msgs|] == c.msgs
            && c'.msgs[|c.msgs|].err != Some(Ok) && (c'.pending == c.pending || c'.pending.None?)
  {
  }

  /** What a callback does to a write in progress: it goes on, or is answered. */
  lemma CallbackWrites(c: Conn, poll: bool, done: Option<Err>, tcp: Err, other: bool)
    requires NetconnModel.Good(c) && c.state.Write?
    ensures Callback(c, poll, done, tcp, other) == if done.Some? then Complete(c, done.value) else c
  {
  }

  lemma CallbackGood(c: Conn, poll: bool, done: Option<Err>, tcp: Err, other: bool)
    requires NetconnModel.Good(c)
    ensures NetconnModel.Good(Callback(c, poll, done, tcp, other))
  {
    hide NetconnModel.Good, Poll, Sent;
    if poll { PollGood(c, done, tcp, other); } else { SentGood(c, done, tcp, other); }
  }

  /** A callback of anything but a write keeps what is known about the writes. */
  lemma CallbackElse(c: Conn, poll: bool, tcp: Err, other: bool)
    requires NetconnModel.Good(c) && !c.state.Write?
    ensures var c' := Callback(c, poll, None, tcp, other);
            && |c'.msgs| == |c.msgs| && c'.pending == c.pending && !c'.state.Write? && (c'.current.Some? ==> c'.current == c.current)
            && forall i {:trigger c'.msgs[i]} :: 0 <= i < |c.msgs| && c.current != Some(i) ==> c'.msgs[i] == c.msgs[i]
  {
    assert Busy(c.state) ==> Working(c, c.state);
    hide NetconnModel.Good, CloseInternal;
    if c.state.Close? {
      CloseElse(c, tcp, other);
      CloseElse(Polled(c), tcp, other);
    }
  }

  lemma CloseElse(c: Conn, tcp: Err, other: bool)
    requires Working(c, Close)
    ensures var c' := CloseInternal(c, tcp, other);
            && |c'.msgs| == |c.msgs| && c'.pending == c.pending && !c'.state.Write? && (c'.current.Some? ==> c'.current == c.current)
            && forall i {:trigger c'.msgs[i]} :: 0 <= i < |c.msgs| && c.current != Some(i) ==> c'.msgs[i] == c.msgs[i]
  {
  }

  lemma CalledWriting(s: State, poll: bool, room: nat, res: nat -> Err, noRoute: bool, tcp: Err, other: bool)
    requires Good(s) && Enabled(s, Called(poll, room, res, noRoute, tcp, other)) && s.conn.state.Write?
    ensures Good(Next(s, Called(poll, room, res, noRoute, tcp, other)))
  {
    hide V.Inv, V.Concat, V.Final, V.Ends, Written, NetconnModel.Good, Callback;
    var s' := Next(s, Called(poll, room, res, noRoute, tcp, other));
    StillUnanswered(s.conn);
    var m :| Writing(s, m) && V.Ends(m, room, false, res);
    var r := V.Final(m, room, false, res);
    VerdictMeans(m, room, res, noRoute);
    CallbackWrites(s.conn, poll, Verdict(r, noRoute), tcp, other);
    CallbackGood(s.conn, poll, Verdict(r, noRoute), tcp, other);
    if Verdict(r, noRoute).None? { assert Writing(s', r.m); }
  }

  lemma CalledElse(s: State, poll: bool, room: nat, res: nat -> Err, noRoute: bool, tcp: Err, other: bool)
    requires Good(s) && Enabled(s, Called(poll, room, res, noRoute, tcp, other)) && !s.conn.state.Write?
    ensures Good(Next(s, Called(poll, room, res, noRoute, tcp, other)))
  {
    hide Written, NetconnModel.Good, Callback;
    var s' := Next(s, Called(poll, room, res, noRoute, tcp, other));
    CallbackElse(s.conn, poll, tcp, other);
    CallbackGood(s.conn, poll, None, tcp, other);
    CurrentStays(s.conn);
    CurrentStays(s'.conn);
    KeepsAcknowledged(s.conn, s'.conn, s.writes);
  }

  /** If only the message in progress changes, and it is not a write, what has been acknowledged stays so. */
  lemma KeepsAcknowledged(c: Conn, c': Conn, writes: seq<Option<V.Msg>>)
    requires Acknowledged(c, writes) && |c'.msgs| == |c.msgs|
    requires c.current.Some? ==> c.current.value < |writes| && writes[c.current.value].None?
    requires forall i {:trigger c'.msgs[i]} :: 0 <= i < |c.msgs| && c.current != Some(i) ==> c'.msgs[i] == c.msgs[i]
    ensures Acknowledged(c', writes)
  {
    hide Written;
    forall i {:trigger writes[i]} | 0 <= i < |writes| && writes[i].Some? && c'.msgs[i].err == Some(Ok) ensures Written(writes[i].value) {
      assert c'.msgs[i] == c.msgs[i];
    }
  }

  lemma StillUnanswered(c: Conn)
    requires NetconnModel.Good(c) && c.state.Write?
    ensures c.current.Some? && c.current.value < |c.msgs| && c.msgs[c.current.value].err.None?
  {
  }

  lemma CurrentStays(c: Conn)
    requires NetconnModel.Good(c)
    ensures c.current.Some? <==> Busy(c.state)
    ensures c.current.Some? ==> c.current.value < |c.msgs| && c.msgs[c.current.value].err.None?
  {
  }

  // ---- the other steps

  predicate Posts(f: Event) {
    f.PostClose? || f.PostDelete? || f.PostConnect?
  }

  /** Posting another message leaves all messages before it, and a write in progress, alone. */
  predicate Appends(c: Conn, c': Conn) {
    && |c'.msgs| == |c.msgs| + 1 && c'.msgs[..|c.msgs|] == c.msgs && c'.pending == c.pending
    && (c.state.Write? ==> c'.state.Write? && c'.current == c.current) && (c'.state.Write? ==> c.state.Write?)
    && (c'.current.Some? ==> c'.current == c.current || c'.current == Some(|c.msgs|))
  }

  lemma CloseAppends(c: Conn, both: bool, polls: nat, tcp: Err, other: bool)
    ensures Appends(c, DoClose(c, both, polls, tcp, other))
  {
    hide CloseInternal;
    var c1 := Occupy(Post(c, polls, both), Close, |c.msgs|);
    if c.pcb { CloseElse(c1, tcp, other); }
  }

  lemma DelconnAppends(c: Conn, polls: nat, tcp: Err)
    requires c.state.Write? ==> c.pcb
    ensures Appends(c, DoDelconn(c, polls, tcp))
  {
  }

  lemma ConnectAppends(c: Conn, tcp: Err)
    ensures Appends(c, DoConnect(c, tcp))
  {
  }

  lemma PostsGood(s: State, f: Event)
    requires Good(s) && Enabled(s, Else(f)) && Posts(f)
    ensures Good(Next(s, Else(f)))
  {
    assert Busy(s.conn.state) ==> Working(s.conn, s.conn.state);
    NextGood(s.conn, f);
    hide Written, NetconnModel.Good, DoClose, DoDelconn, DoConnect, V.Inv;
    var s' := Next(s, Else(f));
    match f {
      case PostClose(both, polls, tcp, other) => CloseAppends(s.conn, both, polls, tcp, other);
      case PostDelete(polls, tcp) => DelconnAppends(s.conn, polls, tcp);
      case PostConnect(tcp) => ConnectAppends(s.conn, tcp);
    }
    CurrentStays(s.conn);
    CurrentStays(s'.conn);
    AppendGood(s, s');
  }

  lemma AppendGood(s: State, s': State)
    requires Good(s) && Appends(s.conn, s'.conn) && s'.writes == s.writes + [None] && NetconnModel.Good(s'.conn)
    requires s'.conn.current.Some? <==> Busy(s'.conn.state)
    requires s.conn.current.Some? <==> Busy(s.conn.state)
    requires s.conn.current.Some? ==> s.conn.current.value < |s.conn.msgs|
    ensures Good(s')
  {
    hide Written, NetconnModel.Good, V.Inv;
    forall i {:trigger s'.writes[i]} | 0 <= i < |s'.writes| && s'.writes[i].Some? && s'.conn.msgs[i].err == Some(Ok) ensures Written(s'.writes[i].value) {
      assert s'.conn.msgs[i] == s'.conn.msgs[..|s.conn.msgs|][i] && s'.writes[i] == s.writes[i];
    }
    if s.conn.state.Write? {
      var m :| Writing(s, m);
      assert Writing(s', m);
    }
  }

  lemma ConnectedFacts(c: Conn, err: Err)
    requires NetconnModel.Good(c) && c.state.Connect?
    ensures var c' := Connected(c, err);
            && |c'.msgs| == |c.msgs| && c'.pending == c.pending && c'.state.Idle?
            && forall i {:trigger c'.msgs[i]} :: 0 <= i < |c.msgs| && c.current != Some(i) ==> c'.msgs[i] == c.msgs[i]
  {
  }

  lemma ErrorFacts(c: Conn, err: Err)
    requires NetconnModel.Good(c) && !err.Ok?
    ensures var c' := ErrTcp(c, err);
            && |c'.msgs| == |c.msgs| && c'.pending == Some(err) && c'.state.Idle?
            && (forall i {:trigger c'.msgs[i]} :: 0 <= i < |c.msgs| && c.current != Some(i) ==> c'.msgs[i] == c.msgs[i])
            && (c.state.Write? ==> c'.msgs[c.current.value].err == Some(err))
  {
  }

  lemma ConnectedKeeps(s: State, err: Err)
    requires Good(s) && Enabled(s, Else(OnConnected(err)))
    ensures Good(Next(s, Else(OnConnected(err))))
  {
    NextGood(s.conn, OnConnected(err));
    CurrentStays(s.conn);
    hide Written, NetconnModel.Good, Connected, V.Inv;
    ConnectedFacts(s.conn, err);
    KeepsAcknowledged(s.conn, Connected(s.conn, err), s.writes);
  }

  lemma ErrorKeeps(s: State, err: Err)
    requires Good(s) && Enabled(s, Else(OnError(err)))
    ensures Good(Next(s, Else(OnError(err))))
  {
    NextGood(s.conn, OnError(err));
    CurrentStays(s.conn);
    hide Written, NetconnModel.Good, ErrTcp, V.Inv;
    ErrorFacts(s.conn, err);
    var c' := ErrTcp(s.conn, err);
    if s.conn.state.Write? {
      forall i {:trigger s.writes[i]} | 0 <= i < |s.writes| && s.writes[i].Some? && c'.msgs[i].err == Some(Ok) ensures Written(s.writes[i].value) {
        assert c'.msgs[i] == s.conn.msgs[i];
      }
    } else {
      KeepsAcknowledged(s.conn, c', s.writes);
    }
  }

  lemma ListenKeeps(s: State)
    requires Good(s) && Enabled(s, Else(StartListen))
    ensures Good(Next(s, Else(StartListen)))
  {
    NextGood(s.conn, StartListen);
    CurrentStays(s.conn);
    hide Written, NetconnModel.Good, V.Inv;
    KeepsAcknowledged(s.conn, s.conn.(state := Listen), s.writes);
  }

  /** Every step keeps: a write acknowledged without error has written everything. */
  lemma NextKeeps(s: State, e: Step)
    requires Good(s) && Enabled(s, e)
    ensures Good(Next(s, e))
  {
    hide Good, Next;
    match e {
      case Submit(vs, room, res, noRoute) => WriteGood(s, vs, room, res, noRoute);
      case Called(poll, room, res, noRoute, tcp, other) =>
        if s.conn.state.Write? {
          CalledWriting(s, poll, room, res, noRoute, tcp, other);
        } else {
          CalledElse(s, poll, room, res, noRoute, tcp, other);
        }
      case Else(f) =>
        if Posts(f) { PostsGood(s, f); }
        else if f.OnConnected? { ConnectedKeeps(s, f.err); }
        else if f.OnError? { ErrorKeeps(s, f.err); }
        else { ListenKeeps(s); }
    }
  }

  // ---- runs

  ghost predicate Moves(s: State, e: Step, s': State) {
    Good(s) ==> Enabled(s, e) && s' == Next(s, e)
  }

  ghost predicate IsTrace(ss: seq<State>, es: seq<Step>) {
    && |ss| == |es| + 1 && ss[0] == State(Conn(Idle, None, ss[0].conn.pcb, None, [], {}), [])
    && forall i {:trigger es[i]} :: 0 <= i < |es| ==> Moves(ss[i], es[i], ss[i + 1])
  }

  lemma {:induction false} TraceGood(ss: seq<State>, es: seq<Step>, i: nat)
    requires IsTrace(ss, es) && i <= |es|
    ensures Good(ss[i])
  {
    hide Next, Enabled;
    if i > 0 {
      hide Good;
      TraceGood(ss, es, i - 1);
      assert Moves(ss[i - 1], es[i - 1], ss[i]);
      NextKeeps(ss[i - 1], es[i - 1]);
    }
  }

  /** What is to be written never changes. */
  lemma VectorsStay(s: State, e: Step, id: nat)
    requires Good(s) && Enabled(s, e) && id < |s.writes|
    ensures id < |Next(s, e).writes|
    ensures s.writes[id].Some? <==> Next(s, e).writes[id].Some?
    ensures s.writes[id].Some? ==> Next(s, e).writes[id].value.vectors == s.writes[id].value.vectors
  {
    hide NetconnModel.Good, V.Inv, V.Final, V.Ends, Written, DoWrite, Callback, NetconnModel.Next;
    if e.Called? && s.conn.state.Write? {
      var m :| Writing(s, m) && V.Ends(m, e.room, false, e.res);
      VerdictMeans(m, e.room, e.res, e.noRoute);
    }
  }

  lemma {:induction false} VectorsPosted(ss: seq<State>, es: seq<Step>, k: nat, i: nat)
    requires IsTrace(ss, es) && k < i <= |es| && es[k].Submit?
    ensures |ss[k].writes| < |ss[i].writes| && ss[i].writes[|ss[k].writes|].Some? && ss[i].writes[|ss[k].writes|].value.vectors == es[k].vs
    decreases i
  {
    hide Good, Enabled, NetconnModel.Next, Callback;
    TraceGood(ss, es, i - 1);
    assert Moves(ss[i - 1], es[i - 1], ss[i]);
    if k + 1 < i {
      VectorsPosted(ss, es, k, i - 1);
      hide Next;
      VectorsStay(ss[i - 1], es[i - 1], |ss[k].writes|);
    } else {
      SubmitPosts(ss[k], es[k]);
    }
  }

  lemma SubmitPosts(s: State, e: Step)
    requires Good(s) && Enabled(s, e) && e.Submit?
    ensures var w := Next(s, e).writes; |w| == |s.writes| + 1 && w[|s.writes|].Some? && w[|s.writes|].value.vectors == e.vs
  {
    hide NetconnModel.Good, V.Inv, V.Final, V.Ends, Written, DoWrite;
    if Begins(s.conn) { VerdictMeans(V.Start(e.vs), e.room, e.res, e.noRoute); }
  }

  /** In every run: when the write posted in step k has been answered without error, TCP has been given exactly
      the bytes of its vectors, in order. */
  lemma OkMeansWritten(ss: seq<State>, es: seq<Step>, k: nat, i: nat)
    requires IsTrace(ss, es) && k < i <= |es| && es[k].Submit?
    ensures var id := |ss[k].writes|;
            && id < |ss[i].conn.msgs| == |ss[i].writes| && ss[i].writes[id].Some?
            && (ss[i].conn.msgs[id].err == Some(Ok) ==> ss[i].writes[id].value.sent == V.Concat(es[k].vs))
  {
    hide Enabled, Next, NetconnModel.Good;
    VectorsPosted(ss, es, k, i);
    TraceGood(ss, es, i);
  }

  // ---- why a write is answered

  /** A step of this kind may answer a write in progress with e. */
  ghost predicate Answers(f: Step, e: Err) {
    match f
    case Submit(_, _, res, noRoute) => Justified(e, res, noRoute)
    case Called(_, _, res, noRoute, _, _) => Justified(e, res, noRoute)
    case Else(g) => g == OnError(e)
  }

  /** What a write is told that cannot begin. */
  predicate Refused(c: Conn, e: Err) {
    if c.pending.Some? then e == c.pending.value
    else if !c.state.Idle? then e.InProgress?
    else e.NotConnected? && !c.pcb
  }

  /** A write posted is answered at once, or is in progress. */
  lemma SubmitAnswers(s: State, f: Step)
    requires Good(s) && Enabled(s, f) && f.Submit?
    ensures var s', id := Next(s, f), |s.writes|;
            && id < |s'.conn.msgs|
            && (if Begins(s.conn)
                then s'.conn.msgs[id].err.Some? ==> Answers(f, s'.conn.msgs[id].err.value)
                else s'.conn.msgs[id].err.Some? && Refused(s.conn, s'.conn.msgs[id].err.value))
            && (s'.conn.msgs[id].err.None? ==> s'.conn.state.Write? && s'.conn.current == Some(id))
  {
    hide V.Inv, V.Final, V.Ends, NetconnModel.Good, V.Concat, Justified, Written;
    if Begins(s.conn) { VerdictMeans(V.Start(f.vs), f.room, f.res, f.noRoute); }
  }

  /** What the step is without the bytes. */
  ghost function AsEvent(s: State, f: Step): Event
    requires Good(s) && Enabled(s, f)
  {
    match f
    case Submit(vs, room, res, noRoute) =>
      PostWrite(if Begins(s.conn) then Verdict(V.Final(V.Start(vs), room, false, res), noRoute) else None)
    case Called(poll, room, res, noRoute, tcp, other) =>
      var done := if s.conn.state.Write? then Verdict(V.Final(s.writes[s.conn.current.value].value, room, false, res), noRoute) else None;
      if poll then OnPoll(done, tcp, other) else OnSent(done, tcp, other)
    case Else(g) => g
  }

  /** A run with the bytes is a run without them, so that all that holds of those holds here. */
  lemma Refines(s: State, f: Step)
    requires Good(s) && Enabled(s, f)
    ensures NetconnModel.Enabled(s.conn, AsEvent(s, f)) && Next(s, f).conn == NetconnModel.Next(s.conn, AsEvent(s, f))
  {
    hide V.Inv, V.Final, V.Ends, V.Concat, Written, DoWrite, Poll, Sent;
  }

  /** The write in progress goes on, or is answered for a reason. */
  lemma InProgressStep(s: State, f: Step, id: nat)
    requires Good(s) && Enabled(s, f) && s.conn.state.Write? && s.conn.current == Some(id)
    ensures var c' := Next(s, f).conn;
            && id < |c'.msgs|
            && (c'.msgs[id].err.None? ==> c'.state.Write? && c'.current == Some(id))
            && (c'.msgs[id].err.Some? ==> Answers(f, c'.msgs[id].err.value))
  {
    hide Good, Next, Justified;
    match f {
      case Submit(vs, room, res, noRoute) => SubmitInProgress(s, f, id);
      case Called(poll, room, res, noRoute, tcp, other) => CalledInProgress(s, f, id);
      case Else(g) => ElseInProgress(s, g, id);
    }
  }

  lemma SubmitInProgress(s: State, f: Step, id: nat)
    requires Good(s) && Enabled(s, f) && s.conn.state.Write? && s.conn.current == Some(id) && f.Submit?
    ensures var c' := Next(s, f).conn; id < |c'.msgs| && c'.msgs[id].err.None? && c'.state.Write? && c'.current == Some(id)
  {
    StillUnanswered(s.conn);
    hide NetconnModel.Good, V.Inv, V.Final, V.Ends, V.Concat, Written, DoWrite;
    RefusedWrite(s.conn);
    assert DoWrite(s.conn, None).msgs[..|s.conn.msgs|][id] == s.conn.msgs[id];
  }

  lemma CalledInProgress(s: State, f: Step, id: nat)
    requires Good(s) && Enabled(s, f) && s.conn.state.Write? && s.conn.current == Some(id) && f.Called?
    ensures var c' := Next(s, f).conn;
            && id < |c'.msgs|
            && (c'.msgs[id].err.None? ==> c'.state.Write? && c'.current == Some(id))
            && (c'.msgs[id].err.Some? ==> Answers(f, c'.msgs[id].err.value))
  {
    hide Good, Next, V.Inv, V.Final, V.Ends, Written, Justified, Verdict;
    var m := CalledIs(s, f, id);
    VerdictMeans(m, f.room, f.res, f.noRoute);
  }

  /** What a callback does while m is being written. */
  lemma CalledIs(s: State, f: Step, id: nat) returns (m: V.Msg)
    requires Good(s) && Enabled(s, f) && s.conn.state.Write? && s.conn.current == Some(id) && f.Called?
    ensures id < |s.writes| && id < |s.conn.msgs| && s.conn.msgs[id].err.None?
    ensures s.writes[id] == Some(m) && V.Inv(m) && m.cnt > 0 && V.Ends(m, f.room, false, f.res)
    ensures var r := V.Final(m, f.room, false, f.res);
            && Next(s, f).writes == s.writes[id := Some(r.m)]
            && Next(s, f).conn == match Verdict(r, f.noRoute) case Some(e) => Complete(s.conn, e) case None => s.conn
  {
    StillUnanswered(s.conn);
    hide NetconnModel.Good, V.Inv, V.Final, V.Ends, V.Concat, Written, Acknowledged, Callback, Verdict;
    m :| Writing(s, m) && V.Ends(m, f.room, false, f.res);
    CallbackWrites(s.conn, f.poll, Verdict(V.Final(m, f.room, false, f.res), f.noRoute), f.tcp, f.other);
  }

  lemma ElseInProgress(s: State, g: Event, id: nat)
    requires Good(s) && Enabled(s, Else(g)) && s.conn.state.Write? && s.conn.current == Some(id)
    ensures var c' := Next(s, Else(g)).conn;
            && id < |c'.msgs|
            && (c'.msgs[id].err.None? ==> c'.state.Write? && c'.current == Some(id))
            && (c'.msgs[id].err.Some? ==> g == OnError(c'.msgs[id].err.value))
  {
    StillUnanswered(s.conn);
    assert Working(s.conn, Write);
    ghost var c' := Next(s, Else(g)).conn;
    if g.OnError? { ErrorFacts(s.conn, g.err); }
    hide NetconnModel.Good, DoClose, DoDelconn, DoConnect, ErrTcp;
    match g {
      case PostClose(both, polls, tcp, other) =>
        CloseAppends(s.conn, both, polls, tcp, other);
        assert c'.msgs[..|s.conn.msgs|][id] == s.conn.msgs[id];
      case PostDelete(polls, tcp) =>
        DelconnAppends(s.conn, polls, tcp);
        assert c'.msgs[..|s.conn.msgs|][id] == s.conn.msgs[id];
      case PostConnect(tcp) =>
        ConnectAppends(s.conn, tcp);
        assert c'.msgs[..|s.conn.msgs|][id] == s.conn.msgs[id];
      case _ =>
    }
  }

  /** In every run a write that has not been answered is in progress; one that has been answered has been refused when it
      was posted, or else for a reason: TCP reported this error, there was no route, or it is no error. */
  lemma {:induction false} WhyAnswered(ss: seq<State>, es: seq<Step>, k: nat, i: nat) returns (m: nat)
    requires IsTrace(ss, es) && k < i <= |es| && es[k].Submit?
    ensures |ss[k].writes| < |ss[i].conn.msgs| && k <= m < i
    ensures var c, id := ss[i].conn, |ss[k].writes|;
            && (c.msgs[id].err.None? ==> c.state.Write? && c.current == Some(id))
            && (c.msgs[id].err.Some? ==>
                  (m == k && !Begins(ss[k].conn) && Refused(ss[k].conn, c.msgs[id].err.value)) || Answers(es[m], c.msgs[id].err.value))
    decreases i
  {
    hide Good, Next, Enabled, Answers, Refused;
    TraceGood(ss, es, i - 1);
    assert Moves(ss[i - 1], es[i - 1], ss[i]);
    var id := |ss[k].writes|;
    m := k;
    if k + 1 == i {
      SubmitAnswers(ss[k], es[k]);
    } else {
      m := WhyAnswered(ss, es, k, i - 1);
      if ss[i - 1].conn.msgs[id].err.None? {
        InProgressStep(ss[i - 1], es[i - 1], id);
        m := i - 1;
      } else {
        AnsweredIsNotCurrent(ss[i - 1], id);
        Refines(ss[i - 1], es[i - 1]);
        AnsweredStays(ss[i - 1].conn, AsEvent(ss[i - 1], es[i - 1]), id);
      }
    }
  }

  lemma AnsweredIsNotCurrent(s: State, id: nat)
    requires Good(s) && id < |s.conn.msgs| && s.conn.msgs[id].err.Some?
    ensures s.conn.current != Some(id) && NetconnModel.Good(s.conn)
  {
    CurrentStays(s.conn);
  }

  /** With memory and a route a call acknowledges exactly when there is room for the rest, and writes what there is room for. */
  lemma FullCall(m: V.Msg, room: nat, res: nat -> Err)
    requires V.Inv(m) && m.cnt > 0 && V.Ends(m, room, false, res) && forall k: nat :: res(k).Ok?
    ensures m.offset <= m.len
    ensures var r := V.Final(m, room, false, res);
            && r.m.offset == m.offset + Min(room, m.len - m.offset)
            && Verdict(r, false) == if room >= m.len - m.offset then Some(Ok) else None
  {
    hide V.Inv, V.Concat, V.Final;
    V.FinalMeans(m, room, false, res);
    V.SameLen(m, V.Final(m, room, false, res).m);
  }

  /** The call f gives the write in progress what TCP has room for, and answers it if that is all. */
  ghost predicate Fills(s: State, f: Step, s': State, id: nat)
    requires f.Called? && id < |s.writes| && s.writes[id].Some? && id < |s'.writes| && s'.writes[id].Some? && id < |s'.conn.msgs|
  {
    var m, m' := s.writes[id].value, s'.writes[id].value;
    if m.offset + f.room >= m.len then s'.conn.msgs[id].err == Some(Ok) && Written(m')
    else s'.conn == s.conn && m'.offset == m.offset + f.room
  }

  lemma RoomStep(s: State, f: Step, id: nat)
    requires Good(s) && Enabled(s, f) && f.Called? && s.conn.state.Write? && s.conn.current == Some(id)
    requires !f.noRoute && forall k: nat :: f.res(k).Ok?
    ensures id < |s.writes| && s.writes[id].Some?
    ensures id < |Next(s, f).conn.msgs| && id < |Next(s, f).writes| && Next(s, f).writes[id].Some? && Fills(s, f, Next(s, f), id)
  {
    hide Good, Next, V.Inv, V.Final, V.Ends, Written, Justified, Verdict;
    var m := CalledIs(s, f, id);
    FullCall(m, f.room, f.res);
    VerdictMeans(m, f.room, f.res, false);
  }

  /** In every run: when TCP comes with room for the rest of the write in progress, memory and a route, the write is answered
      without error; with less room it goes on, by as much as there is room for. */
  lemma RoomMeansOk(ss: seq<State>, es: seq<Step>, i: nat, id: nat)
    requires IsTrace(ss, es) && i < |es| && es[i].Called? && ss[i].conn.state.Write? && ss[i].conn.current == Some(id)
    requires !es[i].noRoute && forall k: nat :: es[i].res(k).Ok?
    ensures id < |ss[i].writes| && ss[i].writes[id].Some?
    ensures id < |ss[i + 1].conn.msgs| && id < |ss[i + 1].writes| && ss[i + 1].writes[id].Some? && Fills(ss[i], es[i], ss[i + 1], id)
  {
    hide Good, Next, Enabled, Fills;
    TraceGood(ss, es, i);
    assert Moves(ss[i], es[i], ss[i + 1]);
    RoomStep(ss[i], es[i], id);
  }

  lemma SubmitIs(s: State, f: Step)
    requires Good(s) && Enabled(s, f) && f.Submit? && Begins(s.conn)
    ensures |s.writes| == |s.conn.msgs| && V.Inv(V.Start(f.vs)) && V.Start(f.vs).cnt > 0 && V.Ends(V.Start(f.vs), f.room, false, f.res)
    ensures var r := V.Final(V.Start(f.vs), f.room, false, f.res);
            Next(s, f).writes == s.writes + [Some(r.m)] && Next(s, f).conn == DoWrite(s.conn, Verdict(r, f.noRoute))
  {
    hide NetconnModel.Good, V.Inv, V.Final, V.Ends, V.Concat, Written, DoWrite, Verdict;
  }

  /** The same for a write that begins: it is answered at once exactly when there is room for everything. */
  lemma RoomAtOnce(ss: seq<State>, es: seq<Step>, i: nat)
    requires IsTrace(ss, es) && i < |es| && es[i].Submit? && Begins(ss[i].conn) && !es[i].noRoute && forall k: nat :: es[i].res(k).Ok?
    ensures var s', id := ss[i + 1], |ss[i].writes|;
            && id < |s'.conn.msgs| && id < |s'.writes| && s'.writes[id].Some? && s'.writes[id].value.offset == Min(es[i].room, |V.Concat(es[i].vs)|)
            && (if es[i].room >= |V.Concat(es[i].vs)| then s'.conn.msgs[id].err == Some(Ok)
                else s'.conn.msgs[id].err.None? && s'.conn.state.Write? && s'.conn.current == Some(id))
  {
    hide Good, Next, Enabled, V.Inv, V.Final, V.Ends, V.Concat, DoWrite;
    TraceGood(ss, es, i);
    assert Moves(ss[i], es[i], ss[i + 1]);
    var s, f := ss[i], es[i];
    SubmitIs(s, f);
    FullCall(V.Start(f.vs), f.room, f.res);
    BegunWrite(s.conn, Verdict(V.Final(V.Start(f.vs), f.room, false, f.res), false));
  }

  /** In every run: without a route the write in progress is over, with an error. */
  lemma NoRouteEnds(ss: seq<State>, es: seq<Step>, i: nat, id: nat)
    requires IsTrace(ss, es) && i < |es| && es[i].Called? && ss[i].conn.state.Write? && ss[i].conn.current == Some(id) && es[i].noRoute
    ensures var c' := ss[i + 1].conn;
            && id < |c'.msgs| && c'.state.Idle? && c'.msgs[id].err.Some? && !c'.msgs[id].err.value.Ok?
            && (c'.msgs[id].err.value.Rte? || V.Reported(es[i].res, c'.msgs[id].err.value))
  {
    hide Good, Next, Enabled, V.Inv, V.Final, V.Ends, Written, Verdict, V.Reported;
    TraceGood(ss, es, i);
    var s, f := ss[i], es[i];
    assert Moves(s, f, ss[i + 1]);
    var m := CalledIs(s, f, id);
    VerdictMeans(m, f.room, f.res, true);
  }
}
