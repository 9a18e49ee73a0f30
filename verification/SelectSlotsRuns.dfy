/** Over all runs of select calls and other threads: exactly when somebody waits for a slot that alloc_socket opens. */
module SelectSlotsRuns {
  import opened Basics
  import opened SelectList
  import opened Select
  import opened SelectProofs
  import opened SelectSlots
  import opened SelectSlotsProofs
  import Slots = SocketSlots

  // ---- runs

  ghost predicate Fresh(j: Joint) {
    && SelectProofs.Initial(j.sel) && |j.calls| == |j.sel.threads| && |j.sel.socks| == |j.table.slots| == |j.table.holders| == |j.opening|
    && j.table.detached == [] && j.table.serial == 0
    && (forall s {:trigger j.table.slots[s]} :: 0 <= s < |j.table.slots| ==> j.table.slots[s] == Slots.Slot(None, 0, false))
    && (forall s {:trigger j.table.holders[s]} :: 0 <= s < |j.table.holders| ==> j.table.holders[s] == {})
    && (forall s {:trigger j.opening[s]} :: 0 <= s < |j.opening| ==> j.opening[s].None?)
    && (forall t {:trigger j.calls[t]} :: 0 <= t < |j.calls| ==> j.calls[t] == Call(Idle, [], {}, {}, None))
  }

  lemma FreshAgrees(j: Joint)
    requires Fresh(j)
    ensures Agrees(j)
  {
    hide Represents, ThreadOk, NoLostWakeup;
    SelectProofs.InitialGood(j.sel);
    forall s {:trigger j.table.slots[s]} | 0 <= s < |j.table.slots| ensures Slots.SlotOk(j.table.slots[s], j.table.holders[s]) {}
    forall t {:trigger j.sel.threads[t]} | 0 <= t < |j.calls| ensures LinkOk(j.calls[t], j.sel.threads[t]) {
      assert j.calls[t] == Call(Idle, [], {}, {}, None);
    }
  }

  ghost predicate Goes(j: Joint, e: Action, j': Joint) {
    Agrees(j) ==> Possible(j, e) && j' == After(j, e)
  }

  ghost predicate IsRun(js: seq<Joint>, es: seq<Action>) {
    && |js| == |es| + 1 && Fresh(js[0])
    && forall i {:trigger es[i]} :: 0 <= i < |es| ==> Goes(js[i], es[i], js[i + 1])
  }

  /** In every run the table counts exactly the uses the select calls have taken, and no wakeup is lost. */
  lemma {:induction false} RunAgrees(js: seq<Joint>, es: seq<Action>, i: nat)
    requires IsRun(js, es) && i <= |es|
    ensures |js| == |es| + 1 && Agrees(js[i])
  {
    hide Agrees, After, Possible;
    if i == 0 {
      FreshAgrees(js[0]);
    } else {
      RunAgrees(js, es, i - 1);
      assert Goes(js[i - 1], es[i - 1], js[i]);
      AfterKeeps(js[i - 1], es[i - 1]);
    }
  }

  // ---- marks that were refused, marks that were granted

  /** The step tries to mark slot s for call t. */
  predicate Marks(j: Joint, e: Action, t: nat, s: nat) {
    e == MarkNext(t) && t < |j.calls| && t < |j.sel.threads| && j.calls[t].stage.Mark? && Tries(j, t) == Some(s) && s < |j.table.slots|
  }

  /** A pending free refuses the mark. */
  predicate Refuses(j: Joint, e: Action, t: nat, s: nat) {
    Marks(j, e, t, s) && j.table.slots[s].pending
  }

  predicate Grants(j: Joint, e: Action, t: nat, s: nat) {
    Marks(j, e, t, s) && !j.table.slots[s].pending
  }

  predicate Begins(e: Action, t: nat) {
    e.Start? && e.t == t
  }

  lemma MarkStep(c: Call, n: nat, granted: bool, s: nat)
    requires c.stage.Mark?
    ensures var c', i := Marked(c, n, granted), c.stage.i;
            var tries := i < |c.watch| && i < n && Has(c.watch[i], c.stage.fds) && i !in c.held && i == s;
            && (s in c'.held <==> s in c.held || (tries && granted))
            && (s in c'.refused <==> if tries then !granted else s in c.refused)
  {
  }

  /** What a step does to the marks of a call. */
  lemma MarksStep(j: Joint, e: Action, t: nat, s: nat)
    requires Agrees(j) && Possible(j, e) && t < |j.calls|
    ensures var j' := After(j, e);
            && |j'.calls| == |j.calls| && |j'.opening| == |j.opening|
            && (s in j'.calls[t].refused <==> Refuses(j, e, t, s) || (s in j.calls[t].refused && !Begins(e, t) && !Grants(j, e, t, s)))
            && (s in j'.calls[t].held ==> Grants(j, e, t, s) || (s in j.calls[t].held && !Begins(e, t)))
  {
    hide Select.Good, Slots.Good, UsesOk, CallOk, LinkOk, Step, Select.Next, OpeningOk;
    if e == MarkNext(t) {
      var granted := Tries(j, t).Some? && Granted(j, Tries(j, t).value);
      MarkStep(j.calls[t], |j.table.slots|, granted, s);
    }
  }

  /** Since step k, call t has neither begun anew nor got its mark. */
  ghost predicate StillRefused(js: seq<Joint>, es: seq<Action>, k: nat, i: nat, t: nat, s: nat)
    requires i <= |es| <= |js|
  {
    forall m {:trigger es[m]} :: k < m < i ==> !Begins(es[m], t) && !Grants(js[m], es[m], t, s)
  }

  lemma StillStep(js: seq<Joint>, es: seq<Action>, k: nat, i: nat, t: nat, s: nat)
    requires 0 < i <= |es| <= |js| && k < i
    ensures StillRefused(js, es, k, i, t, s) <==>
              k == i - 1 || (StillRefused(js, es, k, i - 1, t, s) && !Begins(es[i - 1], t) && !Grants(js[i - 1], es[i - 1], t, s))
  {
    hide Grants, Begins;
  }

  /** A pending free has refused call t its mark of slot s in step k, and it has not got it since. */
  ghost predicate RefusedAt(js: seq<Joint>, es: seq<Action>, k: int, i: nat, t: nat, s: nat)
    requires i <= |es| <= |js|
  {
    0 <= k < i && Refuses(js[k], es[k], t, s) && StillRefused(js, es, k, i, t, s)
  }

  lemma {:induction false} RefusedIff(js: seq<Joint>, es: seq<Action>, i: nat, t: nat, s: nat)
    requires IsRun(js, es) && i <= |es| && t < |js[i].calls|
    ensures s in js[i].calls[t].refused <==> exists k: int :: RefusedAt(js, es, k, i, t, s)
  {
    hide After, Agrees, Possible, Refuses, Grants, StillRefused, Begins;
    if i > 0 {
      var h: nat := i - 1;
      RunAgrees(js, es, h);
      assert Goes(js[h], es[h], js[i]);
      SameSizes(js[h], es[h]);
      RefusedIff(js, es, h, t, s);
      MarksStep(js[h], es[h], t, s);
      forall k: nat {:trigger RefusedAt(js, es, k, i, t, s)} {:trigger RefusedAt(js, es, k, h, t, s)} | k < i ensures RefusedAt(js, es, k, i, t, s) <==>
        if k == h then Refuses(js[k], es[k], t, s)
        else RefusedAt(js, es, k, h, t, s) && !Begins(es[h], t) && !Grants(js[h], es[h], t, s)
      {
        StillStep(js, es, k, i, t, s);
      }
      RefuseIsMark(js[h], es[h], t, s);
      if k: int :| RefusedAt(js, es, k, h, t, s) {
        assert !Begins(es[h], t) && !Grants(js[h], es[h], t, s) ==> RefusedAt(js, es, k, i, t, s);
      }
      if Refuses(js[h], es[h], t, s) { assert RefusedAt(js, es, h, i, t, s); }
    }
  }

  lemma RefuseIsMark(j: Joint, e: Action, t: nat, s: nat)
    ensures Refuses(j, e, t, s) ==> !Begins(e, t) && !Grants(j, e, t, s)
  {
  }

  /** A slot begins to be opened when nobody holds it. */
  lemma OpeningStep(j: Joint, e: Action, s: nat)
    requires Agrees(j) && Possible(j, e) && s < |j.opening|
    ensures var j' := After(j, e);
            && |j'.opening| == |j.opening|
            && (j'.opening[s].Some? && j.opening[s].None? ==> e.Open? && e.s == s && s < |j.table.holders| && j.table.holders[s] == {})
            && (e.MarkNext? ==> j'.opening == j.opening)
  {
    hide Select.Good, UsesOk, CallOk, LinkOk, Step, Select.Next, OpeningOk, Slots.Unique;
    if e.Open? && e.s == s && Slots.Allocatable(j.table.slots[s]) { Slots.HolderCounts(j.table, s); }
  }

  lemma MarkIsUse(j: Joint, t: nat, s: nat)
    requires Agrees(j) && t < |j.calls| && s in j.calls[t].held
    ensures s < |j.table.holders| && MarkUse(t) in j.table.holders[s]
  {
    CallFacts(j, t);
    assert s < |j.table.holders|;
    assert j.calls[t] == j.calls[t] && j.table.holders[s] == j.table.holders[s];
  }

  /** Call t does not begin anew after step k. */
  ghost predicate OneCall(es: seq<Action>, k: nat, i: nat, t: nat)
    requires i <= |es|
  {
    forall m {:trigger es[m]} :: k < m < i ==> !Begins(es[m], t)
  }

  /** Who holds a slot that is being opened has marked it while it was being opened. */
  lemma {:induction false} MarkedWhileOpening(js: seq<Joint>, es: seq<Action>, i: nat, t: nat, s: nat) returns (k: nat)
    requires IsRun(js, es) && i <= |es| && t < |js[i].calls| && s < |js[i].opening| && js[i].opening[s].Some? && s in js[i].calls[t].held
    ensures k < i && Grants(js[k], es[k], t, s) && s < |js[k].opening| && js[k].opening[s].Some? && OneCall(es, k, i, t)
  {
    hide After, Agrees, Possible, Grants;
    assert i > 0;
    var j := js[i - 1];
    RunAgrees(js, es, i - 1);
    assert Goes(j, es[i - 1], js[i]);
    SameSizes(j, es[i - 1]);
    OpeningStep(j, es[i - 1], s);
    MarksStep(j, es[i - 1], t, s);
    if Grants(j, es[i - 1], t, s) {
      assert es[i - 1].MarkNext? by { GrantIsMark(j, es[i - 1], t, s); }
      k := i - 1;
    } else {
      MarkIsUse(j, t, s);
      k := MarkedWhileOpening(js, es, i - 1, t, s);
    }
  }

  lemma GrantIsMark(j: Joint, e: Action, t: nat, s: nat)
    requires Grants(j, e, t, s)
    ensures e.MarkNext?
  {
  }

  lemma SameSizes(j: Joint, e: Action)
    requires Agrees(j) && Possible(j, e)
    ensures |After(j, e).calls| == |j.calls| && |After(j, e).opening| == |j.opening|
  {
    hide Select.Good, UsesOk, CallOk, LinkOk, Step, Select.Next, OpeningOk, Slots.Good;
  }

  // ---- who is counted in select_waiting

  /** Whoever counts in select_waiting has marked the slot, or was refused to. */
  lemma WatcherMarked(j: Joint, t: nat, s: nat)
    requires Agrees(j) && t < |j.sel.threads| && Watching(j.sel.threads[t], s)
    ensures t < |j.calls| && s < |j.sel.socks| && s < |j.table.slots| && (s in j.calls[t].held || s in j.calls[t].refused)
  {
    CallFacts(j, t);
    ThreadFacts(j.sel, t);
    assert j.calls[t].stage.Linked?;
    assert s < |j.calls[t].watch| && Any(j.calls[t].watch[s]);
  }

  lemma {:induction false} SomebodyWatches(ts: seq<Thread>, s: nat) returns (t: nat)
    requires Waiters(ts, s) > 0
    ensures t < |ts| && Watching(ts[t], s)
  {
    if Watching(ts[|ts| - 1], s) { t := |ts| - 1; } else { t := SomebodyWatches(ts[..|ts| - 1], s); }
  }

  lemma WaiterWatches(j: Joint, s: nat) returns (t: nat)
    requires Agrees(j) && s < |j.sel.socks| && j.sel.socks[s].waiting > 0
    ensures t < |j.sel.threads| && Watching(j.sel.threads[t], s)
  {
    hide Represents, ThreadOk, NoLostWakeup, CallsOk, UsesOk, OpeningOk, Slots.Good;
    assert j.sel.socks[s].waiting == Waiters(j.sel.threads, s);
    t := SomebodyWatches(j.sel.threads, s);
  }

  lemma WatcherWaits(j: Joint, t: nat, s: nat)
    requires Agrees(j) && s < |j.sel.socks| && t < |j.sel.threads| && Watching(j.sel.threads[t], s)
    ensures j.sel.socks[s].waiting > 0
  {
    hide Represents, ThreadOk, NoLostWakeup, CallsOk, UsesOk, OpeningOk, Slots.Good;
    assert j.sel.socks[s].waiting == Waiters(j.sel.threads, s);
    WaitersPositive(j.sel.threads, t, s);
  }

  /** Call t still counts in select_waiting of s, and in step k a pending free refused its mark of s. */
  ghost predicate CountsRefused(js: seq<Joint>, es: seq<Action>, i: nat, t: nat, s: nat, k: nat)
    requires i <= |es| < |js|
  {
    t < |js[i].sel.threads| && Watching(js[i].sel.threads[t], s) && RefusedAt(js, es, k, i, t, s)
  }

  /** Call t still counts in select_waiting of s, and has marked s in step k, while alloc_socket was opening it. */
  ghost predicate CountsEarly(js: seq<Joint>, es: seq<Action>, i: nat, t: nat, s: nat, k: nat)
    requires i <= |es| < |js|
  {
    && k < i && t < |js[i].sel.threads| && Watching(js[i].sel.threads[t], s)
    && Grants(js[k], es[k], t, s) && s < |js[k].opening| && js[k].opening[s].Some? && OneCall(es, k, i, t)
  }

  lemma EarlyCounts(js: seq<Joint>, es: seq<Action>, i: nat, t: nat, s: nat, k: nat)
    requires i <= |es| < |js| && t < |js[i].sel.threads| && Watching(js[i].sel.threads[t], s)
    requires k < i && Grants(js[k], es[k], t, s) && s < |js[k].opening| && js[k].opening[s].Some? && OneCall(es, k, i, t)
    ensures CountsEarly(js, es, i, t, s, k)
  {
  }

  lemma RefusedCounts(js: seq<Joint>, es: seq<Action>, i: nat, t: nat, s: nat) returns (k: nat)
    requires IsRun(js, es) && i <= |es| && t < |js[i].calls| && t < |js[i].sel.threads| && Watching(js[i].sel.threads[t], s) && s in js[i].calls[t].refused
    ensures CountsRefused(js, es, i, t, s, k)
  {
    hide After, Agrees, Possible, Refuses, Grants;
    RefusedIff(js, es, i, t, s);
    var k': int :| RefusedAt(js, es, k', i, t, s);
    k := k';
  }

  /** In every run: at a slot that can be allocated, somebody waits exactly if a select call that still counts in it
      had its mark of the slot refused by a pending free. */
  lemma WaiterAtFreeSlotIff(js: seq<Joint>, es: seq<Action>, i: nat, s: nat)
    requires IsRun(js, es) && i <= |es| && s < |js[i].table.slots| && Slots.Allocatable(js[i].table.slots[s])
    ensures s < |js[i].sel.socks|
    ensures js[i].sel.socks[s].waiting > 0 <==> exists t: nat, k: nat :: CountsRefused(js, es, i, t, s, k)
  {
    hide IsRun, CountsRefused;
    RunAgrees(js, es, i);
    var j := js[i];
    AgreesSizes(j);
    Slots.HolderCounts(j.table, s);
    hide Agrees;
    if j.sel.socks[s].waiting > 0 {
      var t := WaiterWatches(j, s);
      WatcherMarked(j, t, s);
      if s in j.calls[t].held { MarkIsUse(j, t, s); }
      var k := RefusedCounts(js, es, i, t, s);
    }
    if t: nat, k: nat :| CountsRefused(js, es, i, t, s, k) {
      CountsWatch(js, es, i, t, s, k);
      WatcherWaits(j, t, s);
    }
  }

  lemma AgreesSizes(j: Joint)
    requires Agrees(j)
    ensures |j.sel.socks| == |j.table.slots| == |j.opening|
  {
  }

  lemma CountsWatch(js: seq<Joint>, es: seq<Action>, i: nat, t: nat, s: nat, k: nat)
    requires i <= |es| < |js| && (CountsRefused(js, es, i, t, s, k) || CountsEarly(js, es, i, t, s, k))
    ensures t < |js[i].sel.threads| && Watching(js[i].sel.threads[t], s)
  {
  }

  /** In every run: the assertion of alloc_socket that nobody waits for the slot it opens fails exactly if a select call that
      counts in the slot had its mark refused by a pending free, or has marked it while it was being opened. */
  lemma AssertionFailsIff(js: seq<Joint>, es: seq<Action>, i: nat, s: nat)
    requires IsRun(js, es) && i <= |es| && s < |js[i].opening| && js[i].opening[s].Some?
    ensures s < |js[i].sel.socks|
    ensures js[i].sel.socks[s].waiting > 0 <==>
              exists t: nat, k: nat :: CountsRefused(js, es, i, t, s, k) || CountsEarly(js, es, i, t, s, k)
  {
    hide IsRun, CountsRefused, CountsEarly;
    RunAgrees(js, es, i);
    var j := js[i];
    AgreesSizes(j);
    hide Agrees;
    if j.sel.socks[s].waiting > 0 {
      var t := WaiterWatches(j, s);
      WatcherMarked(j, t, s);
      if s in j.calls[t].held {
        var k := MarkedWhileOpening(js, es, i, t, s);
        EarlyCounts(js, es, i, t, s, k);
      } else {
        var k := RefusedCounts(js, es, i, t, s);
      }
    }
    if t: nat, k: nat :| CountsRefused(js, es, i, t, s, k) || CountsEarly(js, es, i, t, s, k) {
      CountsWatch(js, es, i, t, s, k);
      WatcherWaits(j, t, s);
    }
  }

  /** A run in which no mark meets a pending free and no mark meets a slot that is being opened. */
  ghost predicate AllMarked(js: seq<Joint>, es: seq<Action>)
    requires |es| <= |js|
  {
    forall k, t: nat, s: nat {:trigger Marks(js[k], es[k], t, s)} :: 0 <= k < |es| && Marks(js[k], es[k], t, s) ==>
      !js[k].table.slots[s].pending && s < |js[k].opening| && js[k].opening[s].None?
  }

  /** In such a run the assertion always holds. */
  lemma AssertionHolds(js: seq<Joint>, es: seq<Action>, i: nat, s: nat)
    requires IsRun(js, es) && i <= |es| && s < |js[i].opening| && js[i].opening[s].Some? && AllMarked(js, es)
    ensures s < |js[i].sel.socks| && js[i].sel.socks[s].waiting == 0
  {
    hide IsRun, StillRefused, OneCall;
    RunAgrees(js, es, i);
    AssertionFailsIff(js, es, i, s);
    forall t: nat, k: nat ensures !CountsRefused(js, es, i, t, s, k) && !CountsEarly(js, es, i, t, s, k) {
      if k < i { assert Marks(js[k], es[k], t, s) ==> !js[k].table.slots[s].pending; }
    }
  }

  // ---- runs in which the assertion fails

  const READ0: seq<Bits> := [Bits(true, false, false)]
  const WRITE0: seq<Bits> := [Bits(false, true, false)]
  const IDLE := Call(Idle, [], {}, {}, None)

  /** One slot and one select call for it, with nothing ready and no event ever; clear: the second scan has read the slot
      as not writable. */
  datatype Scene = Scene(slot: Slots.Slot, holders: set<nat>, serial: nat, opening: Option<nat>, call: Call, phase: Phase, waiting: nat, clear: bool)

  /** One slot, one thread, nothing has happened. */
  const FIRST := Scene(Slots.Slot(None, 0, false), {}, 0, None, IDLE, Out, 0, false)

  ghost predicate Shows(j: Joint, p: Scene) {
    && j.table.slots == [p.slot] && j.table.holders == [p.holders] && j.table.serial == p.serial && j.opening == [p.opening] && j.calls == [p.call]
    && |j.sel.threads| == 1 && j.sel.threads[0].phase == p.phase
    && (p.phase.Out? || (j.sel.threads[0].watch == p.call.watch && !j.sel.threads[0].signalled))
    && (p.clear ==> |j.sel.threads[0].clear| == 1 && j.sel.threads[0].clear[0].write)
    && |j.sel.socks| == 1 && j.sel.socks[0].waiting == p.waiting && Ready(j.sel.socks[0]) == NONE && j.sel.handlers == []
  }

  /** From this scene the action is possible, and leads to that one. */
  ghost predicate Leads(p: Scene, e: Action, p': Scene) {
    forall j: Joint {:trigger Shows(j, p)} :: Agrees(j) && Shows(j, p) ==> Possible(j, e) && Shows(After(j, e), p')
  }

  function Opened(p: Scene, use: nat): Scene {
    p.(slot := Slots.Slot(Some(p.serial), 1, false), holders := {use}, serial := p.serial + 1, opening := Some(use))
  }

  lemma OpenLeads(p: Scene, use: nat)
    requires Slots.Allocatable(p.slot) && p.holders == {} && use >= 2
    ensures Leads(p, Open(0, use), Opened(p, use))
  {
    hide Select.Good, UsesOk, CallOk, LinkOk, Slots.Unique;
  }

  lemma SettleLeads(p: Scene)
    requires p.opening.Some?
    ensures Leads(p, Settle(0, false), p.(opening := None))
  {
    hide Select.Good, UsesOk, CallOk, LinkOk, Slots.Good, Losers;
  }

  /** Somebody takes, gives back or closes with one more or one less use. */
  function Used(p: Scene, slot: Slots.Slot, holders: set<nat>): Scene {
    p.(slot := slot, holders := holders)
  }

  lemma TakeIs(k: Slots.Table, use: nat)
    requires Slots.Good(k) && |k.slots| == 1 && |k.holders| == 1 && use !in k.holders[0] && |k.holders[0]| < 9 && !k.slots[0].pending
    ensures Slots.Enabled(k, Slots.Take(0, use))
    ensures Step(k, Slots.Take(0, use)) == k.(slots := [k.slots[0].(fdUsed := k.slots[0].fdUsed + 1)], holders := [k.holders[0] + {use}])
  {
    hide Slots.Unique;
  }

  lemma TakeLeads(p: Scene, use: nat)
    requires use >= 2 && use !in p.holders && p.opening != Some(use) && !p.slot.pending && |p.holders| < 9
    ensures Leads(p, Other(Slots.Take(0, use)), Used(p, p.slot.(fdUsed := p.slot.fdUsed + 1), p.holders + {use}))
  {
    hide Select.Good, UsesOk, CallOk, LinkOk, Slots.Unique;
  }

  lemma CloseLeads(p: Scene, use: nat)
    requires use >= 2 && use in p.holders && p.opening != Some(use) && p.slot.conn.Some? && p.slot.fdUsed > 0
    ensures Leads(p, Other(Slots.Close(0, use)), Used(p, Slots.FreeLocked(p.slot).0, p.holders - {use}))
  {
    hide Select.Good, UsesOk, CallOk, LinkOk, Slots.Unique;
  }

  lemma ReleaseLeads(p: Scene, use: nat)
    requires use >= 2 && use in p.holders && p.opening != Some(use) && p.slot.fdUsed > 0
    ensures Leads(p, Other(Slots.Release(0, use)), Used(p, Slots.Done(p.slot).0, p.holders - {use}))
  {
    hide Select.Good, UsesOk, CallOk, LinkOk, Slots.Unique;
  }

  lemma StartLeads(p: Scene, watch: seq<Bits>)
    requires p.call.stage.Idle? && p.phase.Out?
    ensures Leads(p, Start(0, watch), p.(call := Call(Mark(Read, 0), watch, {}, {}, None)))
  {
    hide Select.Good, UsesOk, CallOk, LinkOk, Slots.Good;
  }

  /** A step of marking that gets nothing: there is nothing to mark, or a free is pending. */
  lemma MarkLeads(p: Scene)
    requires p.call.stage.Mark? && p.call.visit.None? && |p.call.watch| == 1 && p.phase.Out?
    requires p.slot.pending || p.call.stage.i > 0 || !Has(p.call.watch[0], p.call.stage.fds) || 0 in p.call.held
    ensures Leads(p, MarkNext(0), p.(call := Marked(p.call, 1, false)))
  {
    hide Select.Good, UsesOk, CallOk, LinkOk, Slots.Good;
  }

  lemma GrantLeads(p: Scene)
    requires p.call == Call(Mark(Write, 0), WRITE0, {}, {}, None) && p.phase.Out?
    requires !p.slot.pending && 0 !in p.holders && |p.holders| < 9 && p.slot.fdUsed < 9
    ensures Leads(p, MarkNext(0), Used(p, p.slot.(fdUsed := p.slot.fdUsed + 1), p.holders + {0}).(call := Call(Mark(Write, 1), WRITE0, {0}, {}, None)))
  {
    var p' := Used(p, p.slot.(fdUsed := p.slot.fdUsed + 1), p.holders + {0}).(call := Call(Mark(Write, 1), WRITE0, {0}, {}, None));
    assert p.call.held + {0} == {0} && p.call.refused - {0} == {};
    hide Select.Good, UsesOk, CallOk, LinkOk, Slots.Good, Step;
    forall j: Joint {:trigger Shows(j, p)} | Agrees(j) && Shows(j, p) ensures Possible(j, MarkNext(0)) && Shows(After(j, MarkNext(0)), p') {
      TakeIs(j.table, 0);
    }
  }

  /** The call may look at the slot. */
  predicate Free(p: Scene) {
    p.call.visit.None? && !p.slot.pending && 1 !in p.holders && |p.holders| < 9 && p.slot.fdUsed < 9 && |p.call.watch| == 1 && Any(p.call.watch[0])
  }

  /** It does, and has still to leave it. */
  function Visited(p: Scene): Scene {
    Used(p, p.slot.(fdUsed := p.slot.fdUsed + 1), p.holders + {1}).(call := p.call.(visit := Some(0)))
  }

  lemma LookLeads(p: Scene)
    requires Free(p) && p.call.stage == First(0, false) && p.phase.Out?
    ensures Leads(p, FirstNext(0, false, true), Visited(p.(call := p.call.(stage := First(1, false)))))
  {
    hide Select.Good, UsesOk, CallOk, LinkOk, Slots.Unique;
  }

  lemma LeaveLeads(p: Scene)
    requires Free(p)
    ensures Leads(Visited(p), Finish(0), p)
  {
    hide Select.Good, UsesOk, CallOk, LinkOk, Slots.Unique;
    assert p.holders + {1} - {1} == p.holders && p.call.(visit := Some(0)).(visit := None) == p.call;
  }

  lemma LinkLeads(p: Scene)
    requires p.call.stage == First(1, false) && p.call.visit.None? && |p.call.watch| == 1 && p.phase.Out? && !p.clear
    ensures Leads(p, FirstNext(0, false, true), p.(call := p.call.(stage := Linked), phase := Inc(0)))
  {
    forall j: Joint {:trigger Shows(j, p)} | Agrees(j) && Shows(j, p)
      ensures Possible(j, FirstNext(0, false, true)) && Shows(After(j, FirstNext(0, false, true)), p.(call := p.call.(stage := Linked), phase := Inc(0)))
    {
      BeginReady(j.sel);
      hide Select.Good, UsesOk, CallOk, LinkOk, Slots.Good, Link;
    }
  }

  /** The call counts itself in. */
  lemma CountLeads(p: Scene)
    requires Free(p) && p.call.stage.Linked? && p.phase == Inc(0) && p.waiting < 9
    ensures Leads(p, Inner(0, IncStep(0, true), false), Visited(p.(phase := Inc(1), waiting := p.waiting + 1)))
  {
    hide Select.Good, UsesOk, CallOk, LinkOk, Slots.Unique;
  }

  /** All slots are counted: the second scan begins. */
  lemma CountedLeads(p: Scene)
    requires p.call.stage.Linked? && p.call.visit.None? && p.phase == Inc(1) && |p.call.watch| == 1
    ensures Leads(p, Inner(0, IncStep(0, false), false), p.(phase := Scan(0, false)))
  {
    hide Select.Good, UsesOk, CallOk, LinkOk, Slots.Unique;
  }

  /** The slot is read as not writable. */
  lemma ScanLeads(p: Scene)
    requires Free(p) && p.call.stage.Linked? && p.phase == Scan(0, false) && p.call.watch == WRITE0
    ensures Leads(p, Inner(0, ScanStep(0, true, false), false), Visited(p.(phase := Scan(1, false), clear := true)))
  {
    var e, p' := Inner(0, ScanStep(0, true, false), false), Visited(p.(phase := Scan(1, false), clear := true));
    forall j: Joint {:trigger Shows(j, p)} | Agrees(j) && Shows(j, p) ensures Possible(j, e) && Shows(After(j, e), p') {
      ThreadFacts(j.sel, 0);
      hide Select.Good, UsesOk, CallOk, LinkOk, Slots.Good, Step;
      TakeIs(j.table, 1);
    }
  }

  /** Nothing was found: the thread waits. */
  lemma WaitLeads(p: Scene)
    requires p.call.stage.Linked? && p.call.visit.None? && p.phase == Scan(1, false) && |p.call.watch| == 1 && p.clear
    ensures Leads(p, Inner(0, ScanStep(0, false, false), false), p.(phase := Wait))
  {
    var e, p' := Inner(0, ScanStep(0, false, false), false), p.(phase := Wait);
    forall j: Joint {:trigger Shows(j, p)} | Agrees(j) && Shows(j, p) ensures Possible(j, e) && Shows(After(j, e), p') {
      hide Select.Good, UsesOk, CallOk, LinkOk, Slots.Unique;
    }
  }

  // ---- paths of scenes

  /** A run that ends in this scene. */
  ghost predicate Reaches(js: seq<Joint>, es: seq<Action>, p: Scene) {
    |js| == |es| + 1 && IsRun(js, es) && Agrees(js[|es|]) && Shows(js[|es|], p)
  }

  /** A run goes on with one more action. */
  lemma Extend(js: seq<Joint>, es: seq<Action>, e: Action) returns (js': seq<Joint>, es': seq<Action>)
    requires |js| == |es| + 1 && IsRun(js, es) && Agrees(js[|es|]) && Possible(js[|es|], e)
    ensures Select.Good(js[|es|].sel)
    ensures es' == es + [e] && |js'| == |es'| + 1 && IsRun(js', es') && Agrees(js'[|es'|]) && js'[|es'|] == After(js[|es|], e)
  {
    hide After, Agrees, Possible, Fresh;
    AfterKeeps(js[|es|], e);
    js', es' := js + [After(js[|es|], e)], es + [e];
    forall i {:trigger es'[i]} | 0 <= i < |es'| ensures Goes(js'[i], es'[i], js'[i + 1]) {
      if i < |es| { assert Goes(js[i], es[i], js[i + 1]); }
    }
  }

  /** Some scenes, each leading to the next. */
  ghost predicate Path(ps: seq<Scene>, es: seq<Action>, p: Scene) {
    |ps| == |es| + 1 && ps[0] == FIRST && ps[|es|] == p && forall i {:trigger es[i]} :: 0 <= i < |es| ==> Leads(ps[i], es[i], ps[i + 1])
  }

  lemma {:induction false} PathRun(ps: seq<Scene>, es: seq<Action>, p: Scene) returns (js: seq<Joint>)
    requires Path(ps, es, p)
    ensures Reaches(js, es, p)
    decreases |es|
  {
    if es == [] {
      js := RunNothing();
    } else {
      hide After, Agrees, Possible, IsRun, Shows;
      var n := |es| - 1;
      forall i {:trigger es[..n][i]} | 0 <= i < n ensures Leads(ps[..n + 1][i], es[..n][i], ps[..n + 1][i + 1]) { assert Leads(ps[i], es[i], ps[i + 1]); }
      js := PathRun(ps[..n + 1], es[..n], ps[n]);
      assert Leads(ps[n], es[n], ps[n + 1]);
      var es': seq<Action>;
      js, es' := Extend(js, es[..n], es[n]);
      assert es' == es;
    }
  }

  lemma RunNothing() returns (js: seq<Joint>)
    ensures Reaches(js, [], FIRST)
  {
    var k := Slots.Table([Slots.Slot(None, 0, false)], [{}], [], 0);
    var y := System([Sock(0, false, false, 0)], [Thread(Out, [], [], false, 0, 0)], List(-1, [-1], [-1]), [], 0, [], {});
    var j := Joint(k, y, [IDLE], [None]);
    js := [j];
    hide Select.Good, Slots.Good, CallsOk, UsesOk, OpeningOk;
    FreshAgrees(j);
  }

  lemma Go(ps: seq<Scene>, es: seq<Action>, p: Scene, e: Action, p': Scene) returns (ps': seq<Scene>, es': seq<Action>, q: Scene)
    requires Path(ps, es, p) && Leads(p, e, p')
    ensures Path(ps', es', p') && q == p'
  {
    hide Leads;
    ps', es', q := ps + [p'], es + [e], p';
    forall i {:trigger es'[i]} | 0 <= i < |es'| ensures Leads(ps'[i], es'[i], ps'[i + 1]) {
      if i < |es| { assert Leads(ps[i], es[i], ps[i + 1]); }
    }
  }

  lemma EmptyPath()
    ensures Path([FIRST], [], FIRST)
  {
  }

  /** With nothing else to mark the call goes on to its first scan ... */
  lemma {:induction false} MarksPath(ps0: seq<Scene>, es0: seq<Action>, p: Scene) returns (ps: seq<Scene>, es: seq<Action>, q: Scene)
    requires Path(ps0, es0, p) && p.call.stage.Mark? && p.call.stage.i <= 1 && p.call.visit.None? && p.phase.Out? && |p.call.watch| == 1
    requires 0 in p.call.held || (p.call.watch == READ0 && p.call.stage != Mark(Read, 0))
    ensures q == p.(call := p.call.(stage := First(0, false))) && Path(ps, es, q)
    decreases match p.call.stage.fds case Read => 6 - p.call.stage.i case Write => 4 - p.call.stage.i case Except => 2 - p.call.stage.i
  {
    hide Path, Leads;
    MarkLeads(p);
    ps, es, q := Go(ps0, es0, p, MarkNext(0), p.(call := Marked(p.call, 1, false)));
    if q.call.stage.Mark? { ps, es, q := MarksPath(ps, es, q); }
  }

  /** ... finds nothing ready, links itself, and counts itself in. */
  lemma CountPath(ps0: seq<Scene>, es0: seq<Action>, p: Scene) returns (ps: seq<Scene>, es: seq<Action>, q: Scene)
    requires Path(ps0, es0, p) && Free(p) && p.call.stage == First(0, false) && p.phase.Out? && p.waiting == 0 && !p.clear
    ensures q == p.(call := p.call.(stage := Linked), phase := Inc(1), waiting := 1) && Path(ps, es, q)
  {
    hide Path, Leads;
    var p1 := p.(call := p.call.(stage := First(1, false)));
    LookLeads(p);
    ps, es, q := Go(ps0, es0, p, FirstNext(0, false, true), Visited(p1));
    LeaveLeads(p1);
    ps, es, q := Go(ps, es, q, Finish(0), p1);
    var p2 := p.(call := p.call.(stage := Linked), phase := Inc(0));
    LinkLeads(p1);
    ps, es, q := Go(ps, es, q, FirstNext(0, false, true), p2);
    var p3 := p2.(phase := Inc(1), waiting := 1);
    CountLeads(p2);
    ps, es, q := Go(ps, es, q, Inner(0, IncStep(0, true), false), Visited(p3));
    LeaveLeads(p3);
    ps, es, q := Go(ps, es, q, Finish(0), p3);
  }

  /** A socket is opened, a second thread uses it, a select call for it begins, the first thread closes it, the mark is
      refused, and the second thread leaves. */
  lemma RefusedPath() returns (ps: seq<Scene>, es: seq<Action>, p: Scene)
    ensures p == Scene(Slots.Slot(None, 0, true), {}, 1, None, Call(Mark(Read, 1), READ0, {}, {0}, None), Out, 0, false) && Path(ps, es, p)
  {
    hide Path, Leads;
    EmptyPath();
    ps, es, p := [FIRST], [], FIRST;
    OpenLeads(p, 2);
    ps, es, p := Go(ps, es, p, Open(0, 2), Opened(p, 2));
    SettleLeads(p);
    ps, es, p := Go(ps, es, p, Settle(0, false), p.(opening := None));
    TakeLeads(p, 3);
    ps, es, p := Go(ps, es, p, Other(Slots.Take(0, 3)), Used(p, p.slot.(fdUsed := 2), {2} + {3}));
    StartLeads(p, READ0);
    ps, es, p := Go(ps, es, p, Start(0, READ0), p.(call := Call(Mark(Read, 0), READ0, {}, {}, None)));
    CloseLeads(p, 2);
    assert {2} + {3} - {2} == {3};
    ps, es, p := Go(ps, es, p, Other(Slots.Close(0, 2)), Used(p, Slots.Slot(Some(0), 1, true), {3}));
    MarkLeads(p);
    assert p.call.refused + {0} == {0};
    ps, es, p := Go(ps, es, p, MarkNext(0), p.(call := Call(Mark(Read, 1), READ0, {}, {0}, None)));
    ReleaseLeads(p, 3);
    assert {3} - {3} == {};
    ps, es, p := Go(ps, es, p, Other(Slots.Release(0, 3)), Used(p, Slots.Slot(None, 0, true), {}));
  }

  /** A run after which alloc_socket finds select_waiting to be 1: a socket is opened, used, and closed while in use; a select
      call is refused its mark; the socket is freed and opened again; the call counts itself in; the socket is closed and opened
      once more. */
  lemma FailingRun() returns (js: seq<Joint>, es: seq<Action>)
    ensures |js| == |es| + 1 && IsRun(js, es)
    ensures var l := js[|es|]; |l.opening| == |l.sel.socks| == 1 && l.opening[0].Some? && l.sel.socks[0].waiting == 1
  {
    hide Path, Leads, Reaches;
    var ps: seq<Scene>, p: Scene;
    ps, es, p := RefusedPath();
    OpenLeads(p, 4);
    ps, es, p := Go(ps, es, p, Open(0, 4), Opened(p, 4));
    SettleLeads(p);
    ps, es, p := Go(ps, es, p, Settle(0, false), p.(opening := None));
    ps, es, p := MarksPath(ps, es, p);
    ps, es, p := CountPath(ps, es, p);
    CloseLeads(p, 4);
    assert {4} - {4} == {};
    ps, es, p := Go(ps, es, p, Other(Slots.Close(0, 4)), Used(p, Slots.Slot(None, 0, false), {}));
    OpenLeads(p, 5);
    ps, es, p := Go(ps, es, p, Open(0, 5), Opened(p, 5));
    js := PathRun(ps, es, p);
    ReachesWaiting(js, es, p);
  }

  lemma ReachesWaiting(js: seq<Joint>, es: seq<Action>, p: Scene)
    requires Reaches(js, es, p) && p.opening.Some?
    ensures |js| == |es| + 1 && IsRun(js, es)
    ensures var l := js[|es|]; |l.opening| == |l.sel.socks| == 1 && l.opening[0].Some? && l.sel.socks[0].waiting == p.waiting
  {
  }

  /** A select call marks a slot that is being opened, and counts itself in. */
  lemma EarlyPath() returns (ps: seq<Scene>, es: seq<Action>, p: Scene)
    ensures p == Scene(Slots.Slot(Some(0), 2, false), {2} + {0}, 1, Some(2), Call(Linked, WRITE0, {0}, {}, None), Inc(1), 1, false) && Path(ps, es, p)
  {
    hide Path, Leads;
    EmptyPath();
    ps, es, p := [FIRST], [], FIRST;
    OpenLeads(p, 2);
    ps, es, p := Go(ps, es, p, Open(0, 2), Opened(p, 2));
    StartLeads(p, WRITE0);
    ps, es, p := Go(ps, es, p, Start(0, WRITE0), p.(call := Call(Mark(Read, 0), WRITE0, {}, {}, None)));
    MarkLeads(p);
    ps, es, p := Go(ps, es, p, MarkNext(0), p.(call := Call(Mark(Read, 1), WRITE0, {}, {}, None)));
    MarkLeads(p);
    ps, es, p := Go(ps, es, p, MarkNext(0), p.(call := Call(Mark(Write, 0), WRITE0, {}, {}, None)));
    GrantLeads(p);
    ps, es, p := Go(ps, es, p, MarkNext(0), Used(p, p.slot.(fdUsed := 2), {2} + {0}).(call := Call(Mark(Write, 1), WRITE0, {0}, {}, None)));
    ps, es, p := MarksPath(ps, es, p);
    ps, es, p := CountPath(ps, es, p);
  }

  /** Another run: a select call for a slot nobody has been given yet counts itself in between the two halves of alloc_socket. */
  lemma EarlyRun() returns (js: seq<Joint>, es: seq<Action>)
    ensures |js| == |es| + 1 && IsRun(js, es)
    ensures var l := js[|es|]; |l.opening| == |l.sel.socks| == 1 && l.opening[0].Some? && l.sel.socks[0].waiting == 1
  {
    hide Path, Reaches;
    var ps: seq<Scene>, p: Scene;
    ps, es, p := EarlyPath();
    js := PathRun(ps, es, p);
    ReachesWaiting(js, es, p);
  }

  // ---- and a wakeup that is lost

  /** The socket becomes writable with its opening, and the thread that waits for that is not told. */
  lemma SettleLoses(js: seq<Joint>, es: seq<Action>, p: Scene)
    requires Reaches(js, es, p) && p.clear && p.opening.Some? && p.phase.Wait? && p.call.watch == WRITE0
    ensures Possible(js[|es|], Settle(0, true))
    ensures var y := After(js[|es|], Settle(0, true)).sel; Forsaken(y, 0, 0, Select.Write) && y.threads[0].phase.Wait?
  {
    hide Select.Good, UsesOk, CallOk, LinkOk, Slots.Good, Losers, IsRun;
  }

  /** A run after which a select call waits, untold and with nobody on the way to tell it, for a socket that is writable. */
  lemma LostRun() returns (js: seq<Joint>, es: seq<Action>)
    ensures |js| == |es| + 1 && IsRun(js, es)
    ensures var y := js[|es|].sel; Forsaken(y, 0, 0, Select.Write) && y.threads[0].phase.Wait?
  {
    hide Path, Leads, After, Agrees, Possible, IsRun, Shows, Forsaken;
    var ps: seq<Scene>, p: Scene;
    ps, es, p := EarlyPath();
    CountedLeads(p);
    ps, es, p := Go(ps, es, p, Inner(0, IncStep(0, false), false), p.(phase := Scan(0, false)));
    ScanLeads(p);
    var p1 := p.(phase := Scan(1, false), clear := true);
    ps, es, p := Go(ps, es, p, Inner(0, ScanStep(0, true, false), false), Visited(p1));
    LeaveLeads(p1);
    ps, es, p := Go(ps, es, p, Finish(0), p1);
    WaitLeads(p);
    ps, es, p := Go(ps, es, p, Inner(0, ScanStep(0, false, false), false), p.(phase := Wait));
    js := PathRun(ps, es, p);
    SettleLoses(js, es, p);
    js, es := Extend(js, es, Settle(0, true));
  }
}
