/** Every step of select calls and other threads keeps select and the socket table in agreement. */
module SelectSlotsProofs {
  import opened Basics
  import opened SelectList
  import opened Select
  import opened SelectProofs
  import opened SelectSlots
  import Slots = SocketSlots

  // ---- what a step of the select machine leaves alone

  /** What a thread watches changes only when it links itself; whether it is on the list, only then and when it unlinks. */
  ghost predicate SameWatch(y: System, e: Select.Event, y': System) {
    && |y'.threads| == |y.threads| && |y'.socks| == |y.socks|
    && forall t {:trigger y'.threads[t]} :: 0 <= t < |y.threads| ==>
         if e.Begin? && e.t == t then y'.threads[t].watch == e.watch && !y'.threads[t].phase.Out?
         else y'.threads[t].watch == y.threads[t].watch && (e == DecStep(t) || (y'.threads[t].phase.Out? <==> y.threads[t].phase.Out?))
  }

  lemma OneMoves(y: System, e: Select.Event, y': System, t: nat)
    requires t < |y.threads| == |y'.threads| && |y'.socks| == |y.socks| && y'.threads == y.threads[t := y'.threads[t]]
    requires if e.Begin? then e.t == t && y'.threads[t].watch == e.watch && !y'.threads[t].phase.Out?
             else y'.threads[t].watch == y.threads[t].watch && (e == DecStep(t) || (y'.threads[t].phase.Out? <==> y.threads[t].phase.Out?))
    ensures SameWatch(y, e, y')
  {
  }

  lemma SocksMove(y: System, e: Select.Event, y': System)
    requires y'.threads == y.threads && |y'.socks| == |y.socks| && !e.Begin?
    ensures SameWatch(y, e, y')
  {
  }

  lemma WalkWatch(y: System, k: nat)
    requires Select.Good(y) && Select.Enabled(y, Walk(k))
    ensures SameWatch(y, Walk(k), Select.Next(y, Walk(k)))
  {
    hide Represents, NoLostWakeup, Counted, ThreadOk;
    WalkReady(y, k);
    var node := Target(y, y.handlers[k]);
    hide Target, Select.Good;
    var y' := Visit(y, k, node);
    if node >= 0 { OneMoves(y, Walk(k), y', node); }
  }

  lemma DecWatch(y: System, t: nat)
    requires Select.Good(y) && Select.Enabled(y, DecStep(t))
    ensures SameWatch(y, DecStep(t), Select.Next(y, DecStep(t)))
  {
    hide Represents, NoLostWakeup, Counted, ThreadOk;
    var y' := Select.Next(y, DecStep(t));
    DecReady(y, t);
    hide Select.Good;
    OneMoves(y, DecStep(t), y', t);
  }

  lemma ScanWatch(y: System, t: nat, ok: bool, lastdata: bool)
    requires Select.Enabled(y, ScanStep(t, ok, lastdata)) && |y.threads[t].clear| == |y.threads[t].watch|
    ensures SameWatch(y, ScanStep(t, ok, lastdata), ScanNext(y, t, ok, lastdata))
  {
    OneMoves(y, ScanStep(t, ok, lastdata), ScanNext(y, t, ok, lastdata), t);
  }

  lemma StepWatch(y: System, e: Select.Event)
    requires Select.Good(y) && Select.Enabled(y, e)
    ensures SameWatch(y, e, Select.Next(y, e))
  {
    hide Represents, NoLostWakeup, Counted, SameWatch, ThreadOk, Losers;
    match e {
      case Begin(t, watch) =>
        BeginReady(y);
        OneMoves(y, e, BeginStep(y, t, watch), t);
      case IncStep(t, ok) => OneMoves(y, e, IncNext(y, t, ok), t);
      case ScanStep(t, ok, lastdata) =>
        ThreadFacts(y, t);
        ScanWatch(y, t, ok, lastdata);
      case DecStep(t) => DecWatch(y, t);
      case Walk(k) => WalkWatch(y, k);
      case Wake(t) => OneMoves(y, e, Select.Leave(y, t, y.threads[t].sem - 1), t);
      case Timeout(t) => OneMoves(y, e, Select.Leave(y, t, y.threads[t].sem), t);
      case Post(s, evt) => SocksMove(y, e, PostStep(y, s, evt));
      case Alloc(s, writable) => SocksMove(y, e, Select.Next(y, e));
    }
  }

  // ---- uses

  /** Uses of other threads are still there. */
  ghost predicate OthersStay(holders: seq<set<nat>>, holders': seq<set<nat>>, from: nat) {
    |holders'| == |holders| && forall s, u: nat {:trigger u in holders[s]} :: 0 <= s < |holders| && u >= from && u in holders[s] ==> u in holders'[s]
  }

  /** One call's uses of one slot change, and the call knows. */
  lemma UsesChange(holders: seq<set<nat>>, calls: seq<Call>, t: nat, s: nat, h: set<nat>, c: Call)
    requires UsesOk(holders, calls) && t < |calls| && s < |holders|
    requires forall u: nat {:trigger u in h} {:trigger u in holders[s]} :: u != MarkUse(t) && u != VisitUse(t) ==> (u in h <==> u in holders[s])
    requires forall r {:trigger holders[r]} :: 0 <= r < |holders| && r != s ==>
               (r in c.held <==> r in calls[t].held) && (c.visit == Some(r) <==> calls[t].visit == Some(r))
    requires (MarkUse(t) in h <==> s in c.held) && (VisitUse(t) in h <==> c.visit == Some(s))
    ensures UsesOk(holders[s := h], calls[t := c]) && OthersStay(holders, holders[s := h], 2 * |calls|)
  {
  }

  lemma SameUses(holders: seq<set<nat>>, calls: seq<Call>, t: nat, c: Call)
    requires UsesOk(holders, calls) && t < |calls| && c.held == calls[t].held && c.visit == calls[t].visit
    ensures UsesOk(holders, calls[t := c])
  {
  }

  /** Somebody else's use of one slot changes. */
  lemma UsesElsewhere(holders: seq<set<nat>>, calls: seq<Call>, s: nat, h: set<nat>)
    requires UsesOk(holders, calls) && s < |holders|
    requires forall u: nat {:trigger u in h} {:trigger u in holders[s]} :: u < 2 * |calls| ==> (u in h <==> u in holders[s])
    ensures UsesOk(holders[s := h], calls)
  {
  }

  // ---- one call moves

  /** Thread t's entry may change to c, with table and select machine following. */
  lemma CallMoves(j: Joint, t: nat, c: Call, k: Slots.Table, y: System)
    requires Agrees(j) && t < |j.calls|
    requires Slots.Good(k) && |k.slots| == |j.table.slots| && OthersStay(j.table.holders, k.holders, Uses(j))
    requires Select.Good(y) && |y.threads| == |j.sel.threads| && |y.socks| == |j.sel.socks|
    requires forall u {:trigger y.threads[u]} :: 0 <= u < |y.threads| && u != t ==>
               y.threads[u].watch == j.sel.threads[u].watch && (y.threads[u].phase.Out? <==> j.sel.threads[u].phase.Out?)
    requires CallOk(c, |j.table.slots|) && LinkOk(c, y.threads[t]) && UsesOk(k.holders, j.calls[t := c])
    ensures Agrees(j.(calls := j.calls[t := c], table := k, sel := y))
  {
    hide Select.Good, UsesOk, CallOk, Slots.Unique, Slots.SlotOk;
    var j' := j.(calls := j.calls[t := c], table := k, sel := y);
    forall u {:trigger y.threads[u]} | 0 <= u < |j'.calls| ensures LinkOk(j'.calls[u], y.threads[u]) {
      if u != t { assert LinkOk(j.calls[u], j.sel.threads[u]); }
    }
  }

  /** Nothing but the entry itself changes. */
  lemma OnlyCall(j: Joint, t: nat, c: Call)
    requires Agrees(j) && t < |j.calls| && CallOk(c, |j.table.slots|) && LinkOk(c, j.sel.threads[t])
    requires c.held == j.calls[t].held && c.visit == j.calls[t].visit
    ensures Agrees(j.(calls := j.calls[t := c]))
  {
    hide Select.Good, CallOk, Slots.Unique, Slots.SlotOk;
    SameUses(j.table.holders, j.calls, t, c);
    CallMoves(j, t, c, j.table, j.sel);
    assert j.(calls := j.calls[t := c], table := j.table, sel := j.sel) == j.(calls := j.calls[t := c]);
  }

  lemma CallFacts(j: Joint, t: nat)
    requires Agrees(j) && t < |j.calls|
    ensures |j.calls| == |j.sel.threads| && |j.sel.socks| == |j.table.slots| == |j.table.holders| == |j.opening|
    ensures CallOk(j.calls[t], |j.table.slots|) && LinkOk(j.calls[t], j.sel.threads[t])
    ensures Slots.Good(j.table) && Select.Good(j.sel) && UsesOk(j.table.holders, j.calls)
  {
  }

  /** A call takes one of its two uses of a slot. */
  lemma TakeUse(j: Joint, t: nat, s: nat, use: nat, c: Call)
    requires Agrees(j) && t < |j.calls| && Granted(j, s) && s < |j.table.holders| && |j.table.holders[s]| + 1 < Slots.USED_LIMIT
    requires if use == MarkUse(t) then s !in j.calls[t].held && c.held == j.calls[t].held + {s} && c.visit == j.calls[t].visit
             else use == VisitUse(t) && j.calls[t].visit.None? && c.visit == Some(s) && c.held == j.calls[t].held
    ensures var k := Step(j.table, Slots.Take(s, use));
            Slots.Good(k) && |k.slots| == |j.table.slots| && UsesOk(k.holders, j.calls[t := c]) && OthersStay(j.table.holders, k.holders, Uses(j))
  {
    hide Select.Good, Slots.Good, Slots.Next, CallsOk, OpeningOk;
    CallFacts(j, t);
    assert j.calls[t] == j.calls[t] && j.table.holders[s] == j.table.holders[s];
    StepFacts(j.table, Slots.Take(s, use));
    UsesChange(j.table.holders, j.calls, t, s, j.table.holders[s] + {use}, c);
  }

  /** A call gives one of its two uses of a slot back. */
  lemma GiveUse(j: Joint, t: nat, s: nat, use: nat, c: Call)
    requires Agrees(j) && t < |j.calls| && s < |j.table.holders|
    requires if use == MarkUse(t) then s in j.calls[t].held && c.held == j.calls[t].held - {s} && c.visit == j.calls[t].visit
             else use == VisitUse(t) && j.calls[t].visit == Some(s) && c.visit.None? && c.held == j.calls[t].held
    ensures var k := Step(j.table, Slots.Release(s, use));
            Slots.Good(k) && |k.slots| == |j.table.slots| && UsesOk(k.holders, j.calls[t := c]) && OthersStay(j.table.holders, k.holders, Uses(j))
  {
    hide Select.Good, Slots.Good, Slots.Next, CallsOk, OpeningOk;
    CallFacts(j, t);
    assert j.calls[t] == j.calls[t] && j.table.holders[s] == j.table.holders[s];
    StepFacts(j.table, Slots.Release(s, use));
    UsesChange(j.table.holders, j.calls, t, s, j.table.holders[s] - {use}, c);
  }

  // ---- every kind of step

  lemma MarkOk(c: Call, n: nat, granted: bool)
    requires CallOk(c, n) && c.stage.Mark?
    ensures CallOk(Marked(c, n, granted), n)
  {
  }

  lemma MarkKeeps(j: Joint, t: nat)
    requires Agrees(j) && Possible(j, MarkNext(t))
    ensures Agrees(After(j, MarkNext(t)))
  {
    CallFacts(j, t);
    hide Select.Good, Slots.Good, Agrees, CallOk, Step, UsesOk;
    var c, n := j.calls[t], |j.table.slots|;
    var granted := Tries(j, t).Some? && Granted(j, Tries(j, t).value);
    var c' := Marked(c, n, granted);
    MarkOk(c, n, granted);
    if granted {
      var s := Tries(j, t).value;
      TakeUse(j, t, s, MarkUse(t), c');
      CallMoves(j, t, c', Step(j.table, Slots.Take(s, MarkUse(t))), j.sel);
      assert After(j, MarkNext(t)) == j.(calls := j.calls[t := c'], table := Step(j.table, Slots.Take(s, MarkUse(t))), sel := j.sel);
    } else {
      OnlyCall(j, t, c');
      assert After(j, MarkNext(t)) == j.(calls := j.calls[t := c']);
    }
  }

  lemma StepKept(y: System, e: Select.Event)
    requires Select.Good(y) && Select.Enabled(y, e)
    ensures Select.Good(Select.Next(y, e)) && SameWatch(y, e, Select.Next(y, e))
  {
    hide Select.Good, Select.Next, Select.Enabled, SameWatch;
    NextKeeps(y, e);
    StepWatch(y, e);
  }

  lemma FirstOk(c: Call, n: nat, socks: seq<Sock>, granted: bool, lastdata: bool, wait: bool)
    requires CallOk(c, n) && c.stage.First? && |socks| == n && c.visit.None?
    ensures var c' := FirstScanned(c, socks, granted, lastdata, wait); CallOk(c', n) && c'.held == c.held && c'.watch == c.watch
  {
  }

  lemma FirstKeeps(j: Joint, t: nat, lastdata: bool, wait: bool)
    requires Agrees(j) && Possible(j, FirstNext(t, lastdata, wait))
    ensures Agrees(After(j, FirstNext(t, lastdata, wait)))
  {
    CallFacts(j, t);
    hide Select.Good, Slots.Good, Agrees, CallOk, Step, UsesOk, Select.Next;
    var c, n := j.calls[t], |j.table.slots|;
    var granted := Tries(j, t).Some? && Granted(j, Tries(j, t).value);
    var c' := FirstScanned(c, j.sel.socks, granted, lastdata, wait);
    FirstOk(c, n, j.sel.socks, granted, lastdata, wait);
    if granted {
      var s := Tries(j, t).value;
      TakeUse(j, t, s, VisitUse(t), c');
      CallMoves(j, t, c', Step(j.table, Slots.Take(s, VisitUse(t))), j.sel);
      assert After(j, FirstNext(t, lastdata, wait)) == j.(calls := j.calls[t := c'], table := Step(j.table, Slots.Take(s, VisitUse(t))), sel := j.sel);
    } else if c'.stage.Linked? {
      var y := Select.Next(j.sel, Begin(t, c.watch));
      StepKept(j.sel, Begin(t, c.watch));
      SameUses(j.table.holders, j.calls, t, c');
      CallMoves(j, t, c', j.table, y);
      assert After(j, FirstNext(t, lastdata, wait)) == j.(calls := j.calls[t := c'], table := j.table, sel := y);
    } else {
      OnlyCall(j, t, c');
      assert After(j, FirstNext(t, lastdata, wait)) == j.(calls := j.calls[t := c']);
    }
  }

  /** A call that stays linked, or goes on to the end, keeps its marks. */
  lemma InnerOk(c: Call, n: nat, stage: Stage, visit: Option<nat>)
    requires CallOk(c, n) && c.stage.Linked? && (stage.Linked? || stage == Again(0) || stage == Unmark(0)) && (visit.Some? ==> visit.value < n)
    ensures CallOk(c.(stage := stage, visit := visit), n)
  {
  }

  lemma InnerKeeps(j: Joint, t: nat, e: Select.Event, again: bool)
    requires Agrees(j) && Possible(j, Inner(t, e, again))
    ensures Agrees(After(j, Inner(t, e, again)))
  {
    CallFacts(j, t);
    hide Select.Good, Slots.Good, Agrees, CallOk, Step, UsesOk, Select.Next;
    var y := Select.Next(j.sel, e);
    StepKept(j.sel, e);
    assert y.threads[t].watch == j.sel.threads[t].watch;
    var granted := Tries(j, t).Some? && Granted(j, Tries(j, t).value);
    var stage := if y.threads[t].phase.Out? then (if again then Again(0) else Unmark(0)) else Linked;
    var c' := j.calls[t].(stage := stage, visit := if granted then Tries(j, t) else None);
    InnerOk(j.calls[t], |j.table.slots|, stage, c'.visit);
    if granted {
      var s := Tries(j, t).value;
      TakeUse(j, t, s, VisitUse(t), c');
      CallMoves(j, t, c', Step(j.table, Slots.Take(s, VisitUse(t))), y);
      assert After(j, Inner(t, e, again)) == j.(calls := j.calls[t := c'], table := Step(j.table, Slots.Take(s, VisitUse(t))), sel := y);
    } else {
      SameUses(j.table.holders, j.calls, t, c');
      CallMoves(j, t, c', j.table, y);
      assert After(j, Inner(t, e, again)) == j.(calls := j.calls[t := c'], table := j.table, sel := y);
    }
  }

  lemma AgainOk(c: Call, n: nat, granted: bool)
    requires CallOk(c, n) && c.stage.Again? && c.visit.None? && (granted ==> c.stage.i < n)
    ensures var c' := ScannedAgain(c, granted); CallOk(c', n) && c'.held == c.held
  {
  }

  lemma AgainKeeps(j: Joint, t: nat)
    requires Agrees(j) && Possible(j, AgainNext(t))
    ensures Agrees(After(j, AgainNext(t)))
  {
    CallFacts(j, t);
    hide Select.Good, Slots.Good, Agrees, CallOk, Step, UsesOk;
    var granted := Tries(j, t).Some? && Granted(j, Tries(j, t).value);
    var c' := ScannedAgain(j.calls[t], granted);
    AgainOk(j.calls[t], |j.table.slots|, granted);
    if granted {
      var s := Tries(j, t).value;
      TakeUse(j, t, s, VisitUse(t), c');
      CallMoves(j, t, c', Step(j.table, Slots.Take(s, VisitUse(t))), j.sel);
      assert After(j, AgainNext(t)) == j.(calls := j.calls[t := c'], table := Step(j.table, Slots.Take(s, VisitUse(t))), sel := j.sel);
    } else {
      OnlyCall(j, t, c');
      assert After(j, AgainNext(t)) == j.(calls := j.calls[t := c']);
    }
  }

  lemma UnmarkOk(c: Call, n: nat)
    requires CallOk(c, n) && c.stage.Unmark? && c.visit.None?
    ensures CallOk(Unmarked(c), n) && (c.stage.i in c.held ==> c.stage.i < n && c.stage.i < |c.watch|)
  {
  }

  lemma UnmarkKeeps(j: Joint, t: nat)
    requires Agrees(j) && Possible(j, UnmarkNext(t))
    ensures Agrees(After(j, UnmarkNext(t)))
  {
    CallFacts(j, t);
    hide Select.Good, Slots.Good, Agrees, CallOk, Step, UsesOk;
    var c := j.calls[t];
    var c', i := Unmarked(c), c.stage.i;
    UnmarkOk(c, |j.table.slots|);
    if i in c.held {
      GiveUse(j, t, i, MarkUse(t), c');
      CallMoves(j, t, c', Step(j.table, Slots.Release(i, MarkUse(t))), j.sel);
      assert After(j, UnmarkNext(t)) == j.(calls := j.calls[t := c'], table := Step(j.table, Slots.Release(i, MarkUse(t))), sel := j.sel);
    } else {
      OnlyCall(j, t, c');
      assert After(j, UnmarkNext(t)) == j.(calls := j.calls[t := c']);
    }
  }

  lemma FinishOk(c: Call, n: nat)
    requires CallOk(c, n)
    ensures CallOk(c.(visit := None), n) && (c.visit.Some? ==> c.visit.value < n)
  {
  }

  lemma FinishKeeps(j: Joint, t: nat)
    requires Agrees(j) && Possible(j, Finish(t))
    ensures Agrees(After(j, Finish(t)))
  {
    CallFacts(j, t);
    hide Select.Good, Slots.Good, Agrees, CallOk, Step, UsesOk;
    var c := j.calls[t];
    FinishOk(c, |j.table.slots|);
    var s, c' := c.visit.value, c.(visit := None);
    GiveUse(j, t, s, VisitUse(t), c');
    CallMoves(j, t, c', Step(j.table, Slots.Release(s, VisitUse(t))), j.sel);
    assert After(j, Finish(t)) == j.(calls := j.calls[t := c'], table := Step(j.table, Slots.Release(s, VisitUse(t))), sel := j.sel);
  }

  lemma StartOk(c: Call, n: nat, watch: seq<Bits>)
    requires CallOk(c, n) && c.stage.Idle?
    ensures c.held == {} && c.visit.None? && CallOk(Call(Mark(Read, 0), watch, {}, {}, None), n)
  {
  }

  lemma StartKeeps(j: Joint, t: nat, watch: seq<Bits>)
    requires Agrees(j) && Possible(j, Start(t, watch))
    ensures Agrees(After(j, Start(t, watch)))
  {
    CallFacts(j, t);
    hide Select.Good, Slots.Good, Agrees, CallOk, UsesOk;
    StartOk(j.calls[t], |j.table.slots|, watch);
    OnlyCall(j, t, Call(Mark(Read, 0), watch, {}, {}, None));
  }

  /** Nothing but the table, and which slots are being opened, changes. */
  lemma TableMoves(j: Joint, e: Slots.Event, opening: seq<Option<nat>>)
    requires Agrees(j) && e.use >= Uses(j) && Slots.Enabled(j.table, e) && |opening| == |j.opening|
    requires forall s {:trigger opening[s]} :: 0 <= s < |opening| && opening[s].Some? ==>
               && opening[s].value >= Uses(j)
               && (if s == e.s then opening[s].value in HoldersAfter(j.table, e) else opening[s] == j.opening[s])
    ensures Agrees(j.(table := Step(j.table, e), opening := opening))
  {
    hide Select.Good, Slots.Good, UsesOk, CallOk, LinkOk, Step;
    StepFacts(j.table, e);
    var h := HoldersAfter(j.table, e);
    UsesElsewhere(j.table.holders, j.calls, e.s, h);
    var j' := j.(table := Step(j.table, e), opening := opening);
    forall s {:trigger j'.opening[s]} | 0 <= s < |j'.opening| && j'.opening[s].Some? ensures j'.opening[s].value in j'.table.holders[s] {
      if s != e.s { assert j.opening[s] == opening[s]; }
    }
  }

  lemma OtherKeeps(j: Joint, e: Slots.Event)
    requires Agrees(j) && Possible(j, Other(e))
    ensures Agrees(After(j, Other(e)))
  {
    hide Select.Good, Slots.Good, UsesOk, CallOk, LinkOk, Step;
    assert j.opening[e.s].Some? ==> j.opening[e.s].value in j.table.holders[e.s] && j.opening[e.s].value != e.use;
    TableMoves(j, e, j.opening);
    assert After(j, Other(e)) == j.(table := Step(j.table, e), opening := j.opening);
  }

  lemma OpenKeeps(j: Joint, s: nat, use: nat)
    requires Agrees(j) && Possible(j, Open(s, use))
    ensures Agrees(After(j, Open(s, use)))
  {
    hide Select.Good, Slots.Good, UsesOk, CallOk, LinkOk, Step;
    var opening := if Slots.Allocatable(j.table.slots[s]) then j.opening[s := Some(use)] else j.opening;
    assert j.opening[s].Some? ==> j.opening[s].value in j.table.holders[s];
    TableMoves(j, Slots.Alloc(s, use), opening);
  }

  /** Nothing but the select machine, and which slots are being opened, changes. */
  lemma SelectMoves(j: Joint, e: Select.Event, opening: seq<Option<nat>>)
    requires Agrees(j) && Select.Enabled(j.sel, e) && (e.Post? || e.Walk? || e.Alloc?)
    requires |opening| == |j.opening| && forall s {:trigger opening[s]} :: 0 <= s < |opening| && opening[s].Some? ==> opening[s] == j.opening[s]
    ensures Agrees(j.(sel := Select.Next(j.sel, e), opening := opening))
  {
    hide Select.Good, Slots.Good, UsesOk, CallOk, Select.Next;
    StepKept(j.sel, e);
    var j' := j.(sel := Select.Next(j.sel, e), opening := opening);
    forall t {:trigger j'.sel.threads[t]} | 0 <= t < |j'.calls| ensures LinkOk(j'.calls[t], j'.sel.threads[t]) {
      assert LinkOk(j.calls[t], j.sel.threads[t]);
    }
    forall s {:trigger j'.opening[s]} | 0 <= s < |j'.opening| && j'.opening[s].Some? ensures j'.opening[s].value in j'.table.holders[s] {
      assert j.opening[s] == opening[s];
    }
  }

  /** Every action keeps the two in agreement. */
  lemma AfterKeeps(j: Joint, e: Action)
    requires Agrees(j) && Possible(j, e)
    ensures Select.Good(j.sel) && Agrees(After(j, e))
  {
    hide Select.Good, Slots.Good, UsesOk, CallOk, LinkOk, Step, Select.Next, OpeningOk;
    match e {
      case Other(op) => OtherKeeps(j, op);
      case Open(s, use) => OpenKeeps(j, s, use);
      case Settle(s, writable) => SelectMoves(j, Select.Alloc(s, writable), j.opening[s := None]);
      case Notice(f) =>
        SelectMoves(j, f, j.opening);
        assert After(j, e) == j.(sel := Select.Next(j.sel, f), opening := j.opening);
      case Start(t, watch) => StartKeeps(j, t, watch);
      case MarkNext(t) => MarkKeeps(j, t);
      case FirstNext(t, lastdata, wait) => FirstKeeps(j, t, lastdata, wait);
      case Inner(t, f, again) => InnerKeeps(j, t, f, again);
      case AgainNext(t) => AgainKeeps(j, t);
      case UnmarkNext(t) => UnmarkKeeps(j, t);
      case Finish(t) => FinishKeeps(j, t);
    }
  }
}
