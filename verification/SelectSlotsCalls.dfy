/** What a whole select call does in the joint machine: when its first scan lets it wait, and that it comes to its end. */
module SelectSlotsCalls {
  import opened Basics
  import opened SelectList
  import opened Select
  import opened SelectProofs
  import E = SelectEvents
  import opened SelectSlots
  import opened SelectSlotsProofs
  import opened SelectSlotsRuns

  /** The step is one of call t, other than its beginning. */
  predicate Own(e: Action, t: nat) {
    (e.MarkNext? || e.FirstNext? || e.Inner? || e.AgainNext? || e.UnmarkNext? || e.Finish?) && e.t == t
  }

  // ---- the first scan

  /** The step is call t's successful look at socket s in its first scan. */
  ghost predicate LooksAt(j: Joint, e: Action, t: nat, s: nat) {
    && e.FirstNext? && e.t == t && t < |j.calls| && j.calls[t].stage.First? && j.calls[t].stage.i == s
    && s < |j.calls[t].watch| && Any(j.calls[t].watch[s]) && s < |j.table.slots| && !j.table.slots[s].pending && s < |j.sel.socks|
  }

  /** It finds a condition ready that the call watches. */
  ghost predicate Finds(j: Joint, e: Action, t: nat, s: nat) {
    && LooksAt(j, e, t, s)
    && var w, k := j.calls[t].watch[s], j.sel.socks[s];
       (w.read && (e.lastdata || k.rcvevent > 0)) || (w.write && k.sendevent) || (w.except && k.errevent)
  }

  ghost predicate FindsSome(j: Joint, e: Action, t: nat) {
    exists s: nat :: Finds(j, e, t, s)
  }

  /** In its present call t has found something, in step k. */
  ghost predicate FoundIn(js: seq<Joint>, es: seq<Action>, i: nat, t: nat, k: nat)
    requires i <= |es| < |js|
  {
    k < i && OneCall(es, k, i, t) && FindsSome(js[k], es[k], t)
  }

  /** What a step of the first scan does: past a socket that is not watched, on after a look, out when a socket cannot be
      used; and at the end to waiting exactly if nothing was found and there is time to wait. */
  lemma FirstMoves(j: Joint, e: Action, t: nat)
    requires Agrees(j) && Possible(j, e) && e.FirstNext? && e.t == t
    ensures t < |After(j, e).calls|
    ensures var c, c' := j.calls[t], After(j, e).calls[t];
            var i, n := c.stage.i, |c.watch|;
            && c'.watch == c.watch
            && (i >= n ==> c'.stage == if c.stage.found || !e.wait then Unmark(0) else Linked)
            && (i < n ==> c'.stage == Unmark(0) || (c'.stage.First? && c'.stage.i == i + 1))
            && (i < n ==> (c'.stage.First? <==> !Any(c.watch[i]) || LooksAt(j, e, t, i)))
            && (i < n && c'.stage.First? ==> (c'.stage.found <==> c.stage.found || Finds(j, e, t, i)))
  {
    hide Select.Good, UsesOk, OpeningOk, Slots.Good, Select.Next, Step;
  }

  /** The other steps begin the first scan with nothing found, or leave it alone. */
  lemma FirstKept(j: Joint, e: Action, t: nat)
    requires Agrees(j) && Possible(j, e) && t < |j.calls| && !(e.FirstNext? && e.t == t)
    ensures |After(j, e).calls| == |j.calls|
    ensures var c, c' := j.calls[t], After(j, e).calls[t];
            && (c'.stage.First? ==> !Begins(e, t) && (c'.stage == c.stage || (c'.stage == First(0, false) && c.stage.Mark?)))
            && (c'.stage.Mark? ==> Begins(e, t) || c.stage.Mark?)
  {
    hide Select.Good, UsesOk, OpeningOk, Slots.Good, Select.Next, Step;
  }

  /** A call that marks or is idle has not looked yet. */
  ghost predicate Knows(js: seq<Joint>, es: seq<Action>, i: nat, t: nat)
    requires i <= |es| < |js| && t < |js[i].calls|
  {
    var c := js[i].calls[t];
    && (c.stage.Mark? ==> forall k: nat :: !FoundIn(js, es, i, t, k))
    && (c.stage.First? ==> (c.stage.found <==> exists k: nat :: FoundIn(js, es, i, t, k)))
  }

  /** One more step: what was found before, and the look of this step. */
  lemma FoundStep(js: seq<Joint>, es: seq<Action>, i: nat, t: nat, k: nat)
    requires 0 < i <= |es| < |js|
    ensures FoundIn(js, es, i, t, k) <==>
              if k == i - 1 then FindsSome(js[k], es[k], t) else FoundIn(js, es, i - 1, t, k) && !Begins(es[i - 1], t)
  {
    hide FindsSome, Begins;
  }

  /** This step finds nothing for t: what was found before stays, unless the step begins a call. */
  lemma FoundSame(js: seq<Joint>, es: seq<Action>, i: nat, t: nat)
    requires 0 < i <= |es| < |js| && !FindsSome(js[i - 1], es[i - 1], t)
    ensures forall k: nat :: FoundIn(js, es, i, t, k) <==> FoundIn(js, es, i - 1, t, k) && !Begins(es[i - 1], t)
  {
    hide FindsSome, Begins;
    forall k: nat ensures FoundIn(js, es, i, t, k) <==> FoundIn(js, es, i - 1, t, k) && !Begins(es[i - 1], t) {
      FoundStep(js, es, i, t, k);
    }
  }

  lemma KnowsElse(js: seq<Joint>, es: seq<Action>, i: nat, t: nat)
    requires 0 < i <= |es| < |js| && t < |js[i - 1].calls| && Agrees(js[i - 1]) && Possible(js[i - 1], es[i - 1]) && js[i] == After(js[i - 1], es[i - 1])
    requires Knows(js, es, i - 1, t) && !(es[i - 1].FirstNext? && es[i - 1].t == t)
    ensures t < |js[i].calls| && Knows(js, es, i, t)
  {
    hide After, Agrees, Possible, FoundIn, Begins;
    FirstKept(js[i - 1], es[i - 1], t);
    FoundSame(js, es, i, t);
    var n: nat := i - 1;
    if js[i].calls[t].stage.First? {
      if k: nat :| FoundIn(js, es, i, t, k) { assert FoundIn(js, es, n, t, k); }
      if k: nat :| FoundIn(js, es, n, t, k) { assert FoundIn(js, es, i, t, k); }
    }
  }

  lemma KnowsFirst(js: seq<Joint>, es: seq<Action>, i: nat, t: nat)
    requires 0 < i <= |es| < |js| && t < |js[i - 1].calls| && Agrees(js[i - 1]) && Possible(js[i - 1], es[i - 1]) && js[i] == After(js[i - 1], es[i - 1])
    requires Knows(js, es, i - 1, t) && es[i - 1].FirstNext? && es[i - 1].t == t
    ensures t < |js[i].calls| && Knows(js, es, i, t)
  {
    var n, j, e := i - 1, js[i - 1], es[i - 1];
    OwnStage(j, e, t);
    hide After, Agrees, Possible, FoundIn, Begins;
    FirstMoves(j, e, t);
    var s := j.calls[t].stage.i;
    hide Finds;
    FoundStep(js, es, i, t, n);
    if js[i].calls[t].stage.First? {
      if k: nat :| FoundIn(js, es, i, t, k) {
        FoundStep(js, es, i, t, k);
        if k == n { OnlyThere(j, e, t); } else { assert FoundIn(js, es, n, t, k); }
      }
      if k: nat :| FoundIn(js, es, n, t, k) {
        FoundStep(js, es, i, t, k);
        Earlier(js, es, n, t, k);
        assert FoundIn(js, es, i, t, k);
      }
      if Finds(j, e, t, s) { assert FoundIn(js, es, i, t, n); }
    }
  }

  lemma Earlier(js: seq<Joint>, es: seq<Action>, i: nat, t: nat, k: nat)
    requires i <= |es| < |js| && FoundIn(js, es, i, t, k)
    ensures k < i
  {
  }

  lemma OnlyThere(j: Joint, e: Action, t: nat)
    requires t < |j.calls| && j.calls[t].stage.First?
    ensures forall s: nat :: Finds(j, e, t, s) ==> s == j.calls[t].stage.i
  {
  }

  lemma {:induction false} RunKnows(js: seq<Joint>, es: seq<Action>, i: nat, t: nat)
    requires IsRun(js, es) && i <= |es| && t < |js[0].calls|
    ensures t < |js[i].calls| && Knows(js, es, i, t)
  {
    if i > 0 {
      hide After, Agrees, Possible, Knows;
      RunKnows(js, es, i - 1, t);
      RunAgrees(js, es, i - 1);
      assert Goes(js[i - 1], es[i - 1], js[i]);
      if es[i - 1].FirstNext? && es[i - 1].t == t { KnowsFirst(js, es, i, t); } else { KnowsElse(js, es, i, t); }
    }
  }

  /** Over every run: at the end of its first scan a call goes on to link itself and wait exactly if in this call it has found
      nothing ready and there is time to wait; otherwise it gives its marks back. */
  lemma LinksIff(js: seq<Joint>, es: seq<Action>, i: nat, t: nat)
    requires IsRun(js, es) && i < |es| && t < |js[0].calls| && es[i].FirstNext? && es[i].t == t
    requires t < |js[i].calls| && js[i].calls[t].stage.First? && js[i].calls[t].stage.i >= |js[i].calls[t].watch|
    ensures t < |js[i + 1].calls|
    ensures js[i + 1].calls[t].stage == if es[i].wait && (forall k: nat :: !FoundIn(js, es, i, t, k)) then Linked else Unmark(0)
  {
    hide After, Agrees, Possible, FoundIn;
    RunAgrees(js, es, i);
    assert Goes(js[i], es[i], js[i + 1]);
    RunKnows(js, es, i, t);
    FirstMoves(js[i], es[i], t);
  }

  // ---- a call comes to its end

  /** Steps of its own that the stages of call t have at most before them. */
  function StageRank(c: Call, th: Thread): nat {
    var n := |c.watch|;
    match c.stage
    case Idle => 0
    case Unmark(i) => 1 + E.Saturated(n, i)
    case Again(i) => n + 2 + E.Saturated(n, i)
    case Linked => 2 * n + 3 + E.Rank(th)
    case First(i, _) => 5 * n + 8 + E.Saturated(n, i)
    case Mark(b, i) => 6 * n + 9 + (match b case Except => 0 case Write => n + 1 case Read => 2 * (n + 1)) + E.Saturated(n, i)
  }

  /** Each of them may leave a done_socket to be called. */
  function CallRank(c: Call, th: Thread): nat {
    2 * StageRank(c, th) + if c.visit.Some? then 1 else 0
  }

  /** A call that begins is at 2 * (9 * |watch| + 11). */
  lemma BeginRank(watch: seq<Bits>, th: Thread)
    ensures CallRank(Call(Mark(Read, 0), watch, {}, {}, None), th) == 2 * (9 * |watch| + 11)
  {
  }

  /** What the scan after waiting does: it tries every watched socket in turn, and stops where one cannot be used. */
  lemma AgainMoves(j: Joint, t: nat)
    requires Agrees(j) && Possible(j, AgainNext(t))
    ensures var c, j' := j.calls[t], After(j, AgainNext(t));
            var i, n := c.stage.i, |c.watch|;
            var usable := i < n && i < |j.table.slots| && !j.table.slots[i].pending;
            && |j'.calls| == |j.calls| && j'.sel == j.sel && j'.calls[t].watch == c.watch
            && j'.calls[t].stage == (if i < n && (!Any(c.watch[i]) || usable) then Again(i + 1) else Unmark(0))
            && j'.calls[t].visit == (if i < n && Any(c.watch[i]) && usable then Some(i) else None)
  {
    hide Select.Good, UsesOk, OpeningOk, Slots.Good, Select.Next, Step, CallOk, LinkOk;
  }

  lemma MarkMoves(j: Joint, t: nat)
    requires Agrees(j) && Possible(j, MarkNext(t))
    ensures var c, j' := j.calls[t], After(j, MarkNext(t));
            && |j'.calls| == |j.calls| && j'.sel == j.sel && j'.calls[t].watch == c.watch && c.visit.None? && j'.calls[t].visit.None?
            && j'.calls[t].stage == if c.stage.i < |c.watch| then Mark(c.stage.fds, c.stage.i + 1) else AfterSet(c.stage.fds)
  {
    hide Select.Good, UsesOk, OpeningOk, Slots.Good, Select.Next, Step, CallOk, LinkOk;
  }

  /** Giving back: slot after slot, and then the call is over. */
  lemma UnmarkMoves(j: Joint, t: nat)
    requires Agrees(j) && Possible(j, UnmarkNext(t))
    ensures var c, j' := j.calls[t], After(j, UnmarkNext(t));
            && |j'.calls| == |j.calls| && j'.sel == j.sel && j'.calls[t].watch == c.watch && c.visit.None? && j'.calls[t].visit.None?
            && j'.calls[t].stage == if c.stage.i < |c.watch| then Unmark(c.stage.i + 1) else Idle
  {
    hide Select.Good, UsesOk, OpeningOk, Slots.Good, Select.Next, Step, CallOk, LinkOk;
  }

  lemma FinishMoves(j: Joint, t: nat)
    requires Agrees(j) && Possible(j, Finish(t))
    ensures var j' := After(j, Finish(t)); |j'.calls| == |j.calls| && j'.sel == j.sel && j'.calls[t] == j.calls[t].(visit := None)
  {
    hide Select.Good, UsesOk, OpeningOk, Slots.Good, Select.Next, Step, CallOk, LinkOk;
  }

  lemma InnerMoves(j: Joint, e: Action, t: nat)
    requires Agrees(j) && Possible(j, e) && e.Inner? && e.t == t
    ensures j.calls[t].stage.Linked? && E.Own(e.e, t) && !e.e.Begin?
    ensures var c, j' := j.calls[t], After(j, e);
            && |j'.calls| == |j.calls| && j'.sel == Select.Next(j.sel, e.e) && j'.calls[t].watch == c.watch && c.visit.None?
            && (t < |j'.sel.threads| && j'.sel.threads[t].phase.Out? ==> j'.calls[t].stage == if e.again then Again(0) else Unmark(0))
            && (t < |j'.sel.threads| && !j'.sel.threads[t].phase.Out? ==> j'.calls[t].stage == Linked)
  {
    hide Select.Good, UsesOk, OpeningOk, Slots.Good, Select.Next, Step, CallOk, LinkOk;
  }

  lemma InnerRanks(j: Joint, e: Action, t: nat)
    requires Agrees(j) && Possible(j, e) && e.Inner? && e.t == t
    ensures var j' := After(j, e);
            && t < |j'.calls| && t < |j'.sel.threads| && CallRank(j'.calls[t], j'.sel.threads[t]) < CallRank(j.calls[t], j.sel.threads[t])
  {
    CallFacts(j, t);
    OwnStage(j, e, t);
    hide Agrees, After, Possible, Select.Good, Slots.Good, UsesOk, Select.Next, Select.Enabled, CallOk, E.Rank;
    InnerMoves(j, e, t);
    E.OwnStepRanks(j.sel, e.e, t);
    OutRank(Select.Next(j.sel, e.e).threads[t]);
  }

  lemma OutRank(th: Thread)
    ensures E.Rank(th) == 0 <==> th.phase.Out?
  {
  }

  lemma FirstSelect(j: Joint, e: Action, t: nat)
    requires Agrees(j) && Possible(j, e) && e.FirstNext? && e.t == t
    ensures j.calls[t].stage.First? && j.calls[t].visit.None? && t < |j.sel.threads| && j.sel.threads[t].phase.Out?
    ensures var j' := After(j, e);
            && |j'.calls| == |j.calls|
            && j'.sel == if j'.calls[t].stage.Linked? then Select.Next(j.sel, Begin(t, j.calls[t].watch)) else j.sel
  {
    CallFacts(j, t);
    hide Select.Good, UsesOk, OpeningOk, Slots.Good, Select.Next, Step, CallOk;
  }

  lemma FirstRanks(j: Joint, e: Action, t: nat)
    requires Agrees(j) && Possible(j, e) && e.FirstNext? && e.t == t
    ensures var j' := After(j, e);
            && t < |j'.calls| && t < |j'.sel.threads| && CallRank(j'.calls[t], j'.sel.threads[t]) < CallRank(j.calls[t], j.sel.threads[t])
  {
    CallFacts(j, t);
    hide Agrees, After, Possible, Select.Good, Slots.Good, UsesOk, Select.Next, CallOk, LinkOk, E.Rank, LooksAt, Finds;
    FirstSelect(j, e, t);
    FirstMoves(j, e, t);
    BegunRank(j.sel, t, j.calls[t].watch);
  }

  lemma BegunRank(y: System, t: nat, watch: seq<Bits>)
    requires Select.Good(y) && t < |y.threads| && y.threads[t].phase.Out?
    ensures var y' := Select.Next(y, Begin(t, watch)); |y'.threads| == |y.threads| && E.Rank(y'.threads[t]) == 3 * |watch| + 4
  {
    hide Represents, NoLostWakeup, Counted, ThreadOk, Losers, Link, Unlink;
    BeginReady(y);
  }

  lemma OwnStage(j: Joint, e: Action, t: nat)
    requires Possible(j, e) && t < |j.calls| && Own(e, t)
    ensures e.AgainNext? ==> j.calls[t].visit.None? && j.calls[t].stage.Again?
    ensures e.MarkNext? ==> j.calls[t].stage.Mark?
    ensures e.UnmarkNext? ==> j.calls[t].stage.Unmark?
    ensures e.Finish? ==> j.calls[t].visit.Some?
    ensures e.FirstNext? ==> j.calls[t].stage.First? && !Begins(e, t)
    ensures e.Inner? ==> Select.Enabled(j.sel, e.e)
  {
  }

  lemma OwnRanks(j: Joint, e: Action, t: nat)
    requires Agrees(j) && Possible(j, e) && t < |j.calls| && Own(e, t)
    ensures var j' := After(j, e);
            && t < |j.sel.threads| && t < |j'.calls| && t < |j'.sel.threads|
            && CallRank(j'.calls[t], j'.sel.threads[t]) < CallRank(j.calls[t], j.sel.threads[t])
  {
    CallFacts(j, t);
    OwnStage(j, e, t);
    hide Agrees, After, Possible, Select.Good, Slots.Good, UsesOk, Select.Next, CallOk, LinkOk, E.Rank;
    match e {
      case Inner(_, _, _) => InnerRanks(j, e, t);
      case FirstNext(_, _, _) => FirstRanks(j, e, t);
      case AgainNext(_) => AgainMoves(j, t);
      case MarkNext(_) => MarkMoves(j, t);
      case UnmarkNext(_) => UnmarkMoves(j, t);
      case Finish(_) => FinishMoves(j, t);
    }
  }

  /** Steps of others leave a call where it is. */
  lemma OthersMove(j: Joint, e: Action, t: nat)
    requires Agrees(j) && Possible(j, e) && t < |j.calls| && !Own(e, t) && !Begins(e, t)
    ensures var j' := After(j, e);
            && |j'.calls| == |j.calls| && j'.calls[t] == j.calls[t]
            && (|| j'.sel == j.sel
                || (e.Inner? && Select.Enabled(j.sel, e.e) && !E.Own(e.e, t) && j'.sel == Select.Next(j.sel, e.e))
                || (e.Notice? && Select.Enabled(j.sel, e.e) && !E.Own(e.e, t) && j'.sel == Select.Next(j.sel, e.e))
                || (e.Settle? && Select.Enabled(j.sel, Select.Alloc(e.s, e.writable)) && j'.sel == Select.Next(j.sel, Select.Alloc(e.s, e.writable)))
                || (e.FirstNext? && Select.Enabled(j.sel, Begin(e.t, j.calls[e.t].watch)) && j'.sel == Select.Next(j.sel, Begin(e.t, j.calls[e.t].watch))))
  {
    hide Select.Good, UsesOk, OpeningOk, Slots.Good, Select.Next, Step, CallOk, LinkOk, E.Rank;
    if e.FirstNext? { FirstSelect(j, e, e.t); }
  }

  lemma OtherRanks(j: Joint, e: Action, t: nat)
    requires Agrees(j) && Possible(j, e) && t < |j.calls| && !Own(e, t) && !Begins(e, t)
    ensures var j' := After(j, e);
            && t < |j.sel.threads| && t < |j'.calls| && t < |j'.sel.threads|
            && CallRank(j'.calls[t], j'.sel.threads[t]) == CallRank(j.calls[t], j.sel.threads[t])
  {
    CallFacts(j, t);
    hide Agrees, After, Possible, Select.Good, Select.Next, Select.Enabled, CallOk, E.Rank;
    OthersMove(j, e, t);
    var j' := After(j, e);
    if j'.sel != j.sel {
      var f := if e.Inner? || e.Notice? then e.e else if e.Settle? then Select.Alloc(e.s, e.writable) else Begin(e.t, j.calls[e.t].watch);
      E.OtherRanks(j.sel, f, t);
    }
  }

  /** Steps of its own that call t makes from i to j. */
  function OwnSteps(es: seq<Action>, t: nat, i: nat, j: nat): nat
    requires i <= j <= |es|
    decreases j
  {
    if i == j then 0 else OwnSteps(es, t, i, j - 1) + if Own(es[j - 1], t) then 1 else 0
  }

  /** Over every run: however sockets are opened, closed and used meanwhile, a select call has a bounded number of steps of its
      own, from marking its slots to giving them back: 2 * (9 * |watch| + 11) when it begins. */
  lemma {:induction false} SelectEnds(js: seq<Joint>, es: seq<Action>, i: nat, k: nat, t: nat)
    requires IsRun(js, es) && i <= k <= |es| && t < |js[i].calls| && forall m {:trigger es[m]} :: i <= m < k ==> !Begins(es[m], t)
    ensures t < |js[i].sel.threads| && t < |js[k].calls| && t < |js[k].sel.threads|
    ensures CallRank(js[k].calls[t], js[k].sel.threads[t]) + OwnSteps(es, t, i, k) <= CallRank(js[i].calls[t], js[i].sel.threads[t])
    decreases k
  {
    RunAgrees(js, es, i);
    CallFacts(js[i], t);
    if i < k {
      hide After, Agrees, Possible, CallRank, Begins, Own;
      SelectEnds(js, es, i, k - 1, t);
      RunAgrees(js, es, k - 1);
      assert Goes(js[k - 1], es[k - 1], js[k]);
      if Own(es[k - 1], t) { OwnRanks(js[k - 1], es[k - 1], t); } else { OtherRanks(js[k - 1], es[k - 1], t); }
    }
  }
}
