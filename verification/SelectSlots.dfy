/**
 lwip_select and the socket table together, with LWIP_NETCONN_FULLDUPLEX: a call first marks its slots
 as used, scans them, links itself, counts itself in, scans again, waits, and finally gives its marks
 back, while other threads open, use and close sockets.
*/
module SelectSlots {
  import opened Basics
  import opened SelectList
  import opened Select
  import opened SelectProofs
  import Slots = SocketSlots

  /** Where a call stands. Mark: lwip_select_inc_sockets_used, fd_set by fd_set; First: the first scan;
      Linked: from linking to unlinking, where the select machine says more; Again: the scan after
      waiting; Unmark: lwip_select_dec_sockets_used. */
  datatype Stage = Idle | Mark(fds: Bit, i: nat) | First(i: nat, found: bool) | Linked | Again(i: nat) | Unmark(i: nat)

  /** held: used_sockets; refused: slots that could not be marked; visit: the slot got by
      tryget_socket_unconn_locked for which done_socket is still to be called. */
  datatype Call = Call(stage: Stage, watch: seq<Bits>, held: set<nat>, refused: set<nat>, visit: Option<nat>)

  /** opening: for a slot that alloc_socket has taken but not finished, the use it has taken it with. */
  datatype Joint = Joint(table: Slots.Table, sel: System, calls: seq<Call>, opening: seq<Option<nat>>)

  /** The uses a select call may hold of a slot; those of other threads are numbered behind them. */
  function MarkUse(t: nat): nat { 2 * t }

  function VisitUse(t: nat): nat { 2 * t + 1 }

  function Uses(j: Joint): nat { 2 * |j.calls| }

  datatype Action =
    | Other(op: Slots.Event)
    | Open(s: nat, use: nat)
    | Settle(s: nat, writable: bool)
    | Notice(e: Select.Event)
    | Start(t: nat, watch: seq<Bits>)
    | MarkNext(t: nat)
    | FirstNext(t: nat, lastdata: bool, wait: bool)
    | Inner(t: nat, e: Select.Event, again: bool)
    | AgainNext(t: nat)
    | UnmarkNext(t: nat)
    | Finish(t: nat)

  /** The slot the next step of call t tries to use. */
  function Tries(j: Joint, t: nat): Option<nat>
    requires t < |j.calls| && t < |j.sel.threads|
  {
    var c := j.calls[t];
    match c.stage
    case Mark(b, i) => if i < |c.watch| && Has(c.watch[i], b) && i !in c.held then Some(i) else None
    case First(i, _) => Watched(c.watch, i)
    case Again(i) => Watched(c.watch, i)
    case Linked =>
      var th := j.sel.threads[t];
      if th.phase.Inc? then Watched(th.watch, th.phase.i) else if th.phase.Scan? then Watched(th.watch, th.phase.i) else None
    case _ => None
  }

  function Watched(watch: seq<Bits>, i: nat): Option<nat> {
    if i < |watch| && Any(watch[i]) then Some(i) else None
  }

  /** tryget_socket_unconn_locked succeeds. */
  predicate Granted(j: Joint, s: nat) {
    s < |j.table.slots| && !j.table.slots[s].pending
  }

  /** Call t may go on: it has called done_socket, and fd_used does not overflow. */
  predicate MayGo(j: Joint, t: nat) {
    && t < |j.calls| && t < |j.sel.threads| && j.calls[t].visit.None?
    && (Tries(j, t).Some? && Granted(j, Tries(j, t).value) ==>
          Tries(j, t).value < |j.table.holders| && |j.table.holders[Tries(j, t).value]| + 1 < Slots.USED_LIMIT)
  }

  /** The select machine's own step for call t, with what tryget_socket_unconn_locked answers. */
  predicate Answers(j: Joint, t: nat, e: Select.Event)
    requires t < |j.calls| && t < |j.sel.threads|
  {
    match e
    case IncStep(u, ok) => u == t && ok == (Tries(j, t).Some? && Granted(j, Tries(j, t).value))
    case ScanStep(u, ok, _) => u == t && ok == (Tries(j, t).Some? && Granted(j, Tries(j, t).value))
    case Wake(u) => u == t
    case Timeout(u) => u == t
    case DecStep(u) => u == t
    case _ => false
  }

  predicate Possible(j: Joint, e: Action) {
    match e
    case Other(f) => !f.Alloc? && f.use >= Uses(j) && Slots.Enabled(j.table, f) && f.s < |j.opening| && j.opening[f.s] != Some(f.use)
    case Open(s, use) => use >= Uses(j) && Slots.Enabled(j.table, Slots.Alloc(s, use)) && s < |j.opening|
    case Settle(s, _) => s < |j.opening| && j.opening[s].Some? && s < |j.sel.socks|
    case Notice(f) => (f.Post? || f.Walk?) && Select.Enabled(j.sel, f)
    case Start(t, _) => t < |j.calls| && j.calls[t].stage.Idle?
    case MarkNext(t) => MayGo(j, t) && j.calls[t].stage.Mark?
    case FirstNext(t, _, _) => MayGo(j, t) && j.calls[t].stage.First?
    case Inner(t, f, _) => MayGo(j, t) && j.calls[t].stage.Linked? && Answers(j, t, f) && Select.Enabled(j.sel, f)
    case AgainNext(t) => MayGo(j, t) && j.calls[t].stage.Again?
    case UnmarkNext(t) => MayGo(j, t) && j.calls[t].stage.Unmark?
    case Finish(t) => t < |j.calls| && j.calls[t].visit.Some?
  }

  // ---- what call t does to itself

  function AfterSet(b: Bit): Stage {
    match b case Read => Mark(Write, 0) case Write => Mark(Except, 0) case Except => First(0, false)
  }

  function Marked(c: Call, slots: nat, granted: bool): Call
    requires c.stage.Mark?
  {
    var b, i := c.stage.fds, c.stage.i;
    if i >= |c.watch| then c.(stage := AfterSet(b))
    else if !Has(c.watch[i], b) || i in c.held || i >= slots then c.(stage := Mark(b, i + 1))
    else if granted then c.(stage := Mark(b, i + 1), held := c.held + {i}, refused := c.refused - {i})
    else c.(stage := Mark(b, i + 1), refused := c.refused + {i})
  }

  function FirstScanned(c: Call, socks: seq<Sock>, granted: bool, lastdata: bool, wait: bool): Call
    requires c.stage.First?
  {
    var i, found := c.stage.i, c.stage.found;
    if i >= |c.watch| then c.(stage := if found || !wait then Unmark(0) else Linked)
    else if !Any(c.watch[i]) then c.(stage := First(i + 1, found))
    else if !granted || i >= |socks| then c.(stage := Unmark(0))
    else c.(stage := First(i + 1, found || Any(Found(c.watch[i], socks[i], lastdata))), visit := Some(i))
  }

  function ScannedAgain(c: Call, granted: bool): Call
    requires c.stage.Again?
  {
    var i := c.stage.i;
    if i >= |c.watch| then c.(stage := Unmark(0))
    else if !Any(c.watch[i]) then c.(stage := Again(i + 1))
    else if !granted then c.(stage := Unmark(0))
    else c.(stage := Again(i + 1), visit := Some(i))
  }

  function Unmarked(c: Call): Call
    requires c.stage.Unmark?
  {
    var i := c.stage.i;
    if i >= |c.watch| then c.(stage := Idle) else c.(stage := Unmark(i + 1), held := c.held - {i})
  }

  // ---- the machine

  ghost function Step(k: Slots.Table, e: Slots.Event): Slots.Table {
    if Slots.Good(k) && Slots.Enabled(k, e) then Slots.Next(k, e) else k
  }

  /** The use that call t gets in this step, if any. */
  ghost function Taken(j: Joint, t: nat, use: nat): Slots.Table
    requires t < |j.calls| && t < |j.sel.threads|
  {
    if Tries(j, t).Some? && Granted(j, Tries(j, t).value) then Step(j.table, Slots.Take(Tries(j, t).value, use)) else j.table
  }

  ghost function After(j: Joint, e: Action): Joint
    requires Select.Good(j.sel) && Possible(j, e)
  {
    match e
    case Other(f) => j.(table := Step(j.table, f))
    case Open(s, use) =>
      j.(table := Step(j.table, Slots.Alloc(s, use)),
         opening := if Slots.Allocatable(j.table.slots[s]) then j.opening[s := Some(use)] else j.opening)
    case Settle(s, writable) => j.(sel := Select.Next(j.sel, Select.Alloc(s, writable)), opening := j.opening[s := None])
    case Notice(f) => j.(sel := Select.Next(j.sel, f))
    case Start(t, watch) => j.(calls := j.calls[t := Call(Mark(Read, 0), watch, {}, {}, None)])
    case MarkNext(t) =>
      var granted := Tries(j, t).Some? && Granted(j, Tries(j, t).value);
      j.(table := Taken(j, t, MarkUse(t)), calls := j.calls[t := Marked(j.calls[t], |j.table.slots|, granted)])
    case FirstNext(t, lastdata, wait) =>
      var granted := Tries(j, t).Some? && Granted(j, Tries(j, t).value);
      var c := FirstScanned(j.calls[t], j.sel.socks, granted, lastdata, wait);
      j.(table := Taken(j, t, VisitUse(t)), calls := j.calls[t := c],
         sel := if c.stage.Linked? && j.sel.threads[t].phase.Out? then Select.Next(j.sel, Begin(t, c.watch)) else j.sel)
    case Inner(t, f, again) =>
      var granted := Tries(j, t).Some? && Granted(j, Tries(j, t).value);
      var y := Select.Next(j.sel, f);
      var stage := if t < |y.threads| && y.threads[t].phase.Out? then (if again then Again(0) else Unmark(0)) else Linked;
      j.(table := Taken(j, t, VisitUse(t)), sel := y,
         calls := j.calls[t := j.calls[t].(stage := stage, visit := if granted then Tries(j, t) else None)])
    case AgainNext(t) =>
      var granted := Tries(j, t).Some? && Granted(j, Tries(j, t).value);
      j.(table := Taken(j, t, VisitUse(t)), calls := j.calls[t := ScannedAgain(j.calls[t], granted)])
    case UnmarkNext(t) =>
      var c := j.calls[t];
      j.(table := if c.stage.i < |c.watch| && c.stage.i in c.held then Step(j.table, Slots.Release(c.stage.i, MarkUse(t))) else j.table,
         calls := j.calls[t := Unmarked(c)])
    case Finish(t) =>
      j.(table := Step(j.table, Slots.Release(j.calls[t].visit.value, VisitUse(t))), calls := j.calls[t := j.calls[t].(visit := None)])
  }

  // ---- the invariant

  /** The table counts exactly the marks and visits of the calls as theirs. */
  ghost predicate UsesOk(holders: seq<set<nat>>, calls: seq<Call>) {
    forall t, s {:trigger calls[t], holders[s]} :: 0 <= t < |calls| && 0 <= s < |holders| ==>
      && (MarkUse(t) in holders[s] <==> s in calls[t].held)
      && (VisitUse(t) in holders[s] <==> calls[t].visit == Some(s))
  }

  /** The slot stands in one of the fd_sets that have been gone through. */
  predicate Past(w: Bits, b: Bit, before: bool) {
    match b
    case Read => w.read && before
    case Write => w.read || (w.write && before)
    case Except => w.read || w.write || (w.except && before)
  }

  /** Slots that have been tried are marked or were refused. */
  ghost predicate Tried(c: Call, n: nat) {
    forall s: nat {:trigger c.watch[s]} :: s < |c.watch| && s < n && s !in c.held && s !in c.refused ==>
      match c.stage
      case Mark(b, i) => !Past(c.watch[s], b, s < i)
      case First(_, _) => !Any(c.watch[s])
      case Linked => !Any(c.watch[s])
      case Again(_) => !Any(c.watch[s])
      case _ => true
  }

  ghost predicate CallOk(c: Call, n: nat) {
    && Tried(c, n)
    && (forall s {:trigger s in c.held} :: s in c.held ==> s < n && s < |c.watch| && (c.stage.Unmark? ==> c.stage.i <= s))
    && (c.stage.Idle? ==> c.held == {} && c.visit.None?)
    && (c.visit.Some? ==> c.visit.value < n)
  }

  ghost predicate LinkOk(c: Call, th: Thread) {
    (c.stage.Linked? <==> !th.phase.Out?) && (c.stage.Linked? ==> th.watch == c.watch)
  }

  ghost predicate CallsOk(j: Joint) {
    && |j.calls| == |j.sel.threads| && |j.sel.socks| == |j.table.slots| == |j.table.holders| == |j.opening|
    && (forall t {:trigger j.calls[t]} :: 0 <= t < |j.calls| ==> CallOk(j.calls[t], |j.table.slots|))
    && (forall t {:trigger j.sel.threads[t]} :: 0 <= t < |j.calls| ==> LinkOk(j.calls[t], j.sel.threads[t]))
  }

  /** A slot that is being opened is held by its opener. */
  ghost predicate OpeningOk(j: Joint) {
    forall s {:trigger j.opening[s]} :: 0 <= s < |j.opening| && s < |j.table.holders| && j.opening[s].Some? ==>
      j.opening[s].value >= Uses(j) && j.opening[s].value in j.table.holders[s]
  }

  ghost predicate Agrees(j: Joint) {
    Slots.Good(j.table) && Select.Good(j.sel) && CallsOk(j) && UsesOk(j.table.holders, j.calls) && OpeningOk(j)
  }

  // ---- steps of the table

  /** The holders of a slot after a step. */
  ghost function HoldersAfter(k: Slots.Table, e: Slots.Event): set<nat>
    requires e.s < |k.slots| == |k.holders|
  {
    match e
    case Take(s, use) => if k.slots[s].pending then k.holders[s] else k.holders[s] + {use}
    case Release(s, use) => k.holders[s] - {use}
    case Close(s, use) => k.holders[s] - {use}
    case Alloc(s, use) => if Slots.Allocatable(k.slots[s]) then k.holders[s] + {use} else k.holders[s]
  }

  lemma StepFacts(k: Slots.Table, e: Slots.Event)
    requires Slots.Good(k) && Slots.Enabled(k, e)
    ensures Slots.Good(Step(k, e)) && |Step(k, e).slots| == |k.slots| == |k.holders|
    ensures Step(k, e).holders == k.holders[e.s := HoldersAfter(k, e)]
  {
    hide Slots.Unique;
    Slots.NextKeeps(k, e);
  }
}
