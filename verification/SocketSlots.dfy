/**
 The socket table with LWIP_NETCONN_FULLDUPLEX: slots are used by several threads at
 once, and fd_used keeps a slot from being freed or reused under a thread's feet.
*/
module SocketSlots {
  import opened Basics

  /** conn: the netconn, by the number of its allocation; pending: fd_free_pending. */
  datatype Slot = Slot(conn: Option<nat>, fdUsed: nat, pending: bool)

  /** The number of values of fd_used. */
  const USED_LIMIT := 256

  // ---- the protected regions

  /** sock_inc_used: the slot, and whether the caller may use it. */
  function IncUsed(k: Slot): (Slot, bool) {
    if k.pending then (k, false) else (k.(fdUsed := (k.fdUsed + 1) % USED_LIMIT), true)
  }

  /** free_socket_locked: the slot, and the netconn the caller has to delete if it was freed. */
  function FreeLocked(k: Slot): (Slot, Option<nat>)
    requires k.fdUsed > 0
  {
    if k.fdUsed - 1 > 0 then (k.(fdUsed := k.fdUsed - 1, pending := true), None)
    else (k.(fdUsed := 0, conn := None), k.conn)
  }

  /** done_socket */
  function Done(k: Slot): (Slot, Option<nat>)
    requires k.fdUsed > 0
  {
    if k.fdUsed - 1 == 0 && k.pending then FreeLocked(k.(fdUsed := 1)) else (k.(fdUsed := k.fdUsed - 1), None)
  }

  /** Whether alloc_socket takes the slot. */
  predicate Allocatable(k: Slot) {
    k.conn.None? && k.fdUsed == 0
  }

  // ---- threads using the table

  /** holders: the uses taken and not yet given back, slot by slot; detached: the netconns
      handed out for deletion, oldest first; serial: how many allocations there have been. */
  datatype Table = Table(slots: seq<Slot>, holders: seq<set<nat>>, detached: seq<nat>, serial: nat)

  /** Take: tryget_socket; Release: done_socket; Close: free_socket; Alloc: one round of
      alloc_socket's loop. `use` names the use of the slot. */
  datatype Event = Take(s: nat, use: nat) | Release(s: nat, use: nat) | Close(s: nat, use: nat) | Alloc(s: nat, use: nat)

  predicate Enabled(t: Table, e: Event) {
    && e.s < |t.slots| == |t.holders|
    && match e
       case Take(s, use) => use !in t.holders[s] && |t.holders[s]| + 1 < USED_LIMIT
       case Release(s, use) => use in t.holders[s]
       case Close(s, use) => use in t.holders[s] && t.slots[s].conn.Some?
       case Alloc(s, use) => use !in t.holders[s]
  }

  function Log(t: Table, conn: Option<nat>): seq<nat> {
    if conn.Some? then t.detached + [conn.value] else t.detached
  }

  ghost function Next(t: Table, e: Event): Table
    requires Good(t) && Enabled(t, e)
  {
    var s := e.s;
    HolderCounts(t, s);
    match e
    case Take(_, use) =>
      var (k, ok) := IncUsed(t.slots[s]);
      t.(slots := t.slots[s := k], holders := if ok then t.holders[s := t.holders[s] + {use}] else t.holders)
    case Release(_, use) =>
      var (k, conn) := Done(t.slots[s]);
      t.(slots := t.slots[s := k], holders := t.holders[s := t.holders[s] - {use}], detached := Log(t, conn))
    case Close(_, use) =>
      var (k, conn) := FreeLocked(t.slots[s]);
      t.(slots := t.slots[s := k], holders := t.holders[s := t.holders[s] - {use}], detached := Log(t, conn))
    case Alloc(_, use) =>
      if Allocatable(t.slots[s]) then
        t.(slots := t.slots[s := Slot(Some(t.serial), 1, false)], holders := t.holders[s := t.holders[s] + {use}],
           serial := t.serial + 1)
      else t
  }

  /** fd_used is the number of holders; a pending free waits for exactly as long as there are some. */
  predicate SlotOk(k: Slot, holders: set<nat>) {
    && k.fdUsed == |holders| < USED_LIMIT
    && (k.pending ==> (k.conn.Some? <==> holders != {}))
  }

  /** Every netconn is in one slot or has been handed out once. */
  ghost predicate Unique(t: Table) {
    && (forall i {:trigger t.slots[i]} :: 0 <= i < |t.slots| && t.slots[i].conn.Some? ==>
          t.slots[i].conn.value < t.serial && t.slots[i].conn.value !in t.detached)
    && (forall i, j {:trigger t.slots[i], t.slots[j]} :: 0 <= i < j < |t.slots| && t.slots[i].conn.Some? ==> t.slots[i].conn != t.slots[j].conn)
    && (forall i {:trigger t.detached[i]} :: 0 <= i < |t.detached| ==> t.detached[i] < t.serial)
    && (forall i, j {:trigger t.detached[i], t.detached[j]} :: 0 <= i < j < |t.detached| ==> t.detached[i] != t.detached[j])
  }

  ghost predicate Good(t: Table) {
    && |t.slots| == |t.holders| && Unique(t)
    && forall i {:trigger t.slots[i]} {:trigger t.holders[i]} :: 0 <= i < |t.slots| ==> SlotOk(t.slots[i], t.holders[i])
  }

  /** The assertions of done_socket and free_socket_locked that fd_used is positive. */
  lemma HolderCounts(t: Table, s: nat)
    requires Good(t) && s < |t.slots|
    ensures t.holders[s] != {} <==> t.slots[s].fdUsed > 0
  {
  }

  /** What one step does to the slot it is about. */
  lemma StepSlot(t: Table, e: Event)
    requires Good(t) && Enabled(t, e)
    ensures var s, t' := e.s, Next(t, e);
            && |t'.slots| == |t'.holders| == |t.slots| && SlotOk(t'.slots[s], t'.holders[s])
            // a netconn is detached only by the last holder, and then nobody holds the slot
            && (t'.detached != t.detached ==>
                  && (e.Release? || e.Close?) && t.holders[s] == {e.use} && t'.holders[s] == {}
                  && t.slots[s].conn.Some? && t'.slots[s].conn == None && t'.detached == t.detached + [t.slots[s].conn.value])
            && (t'.detached == t.detached && !e.Alloc? ==> t'.slots[s].conn == t.slots[s].conn)
  {
  }

  /** Every step of every thread keeps the invariant. */
  lemma NextKeeps(t: Table, e: Event)
    requires Good(t) && Enabled(t, e)
    ensures Good(Next(t, e))
  {
    hide SlotOk, Done, FreeLocked, IncUsed;
    StepSlot(t, e);
    var t' := Next(t, e);
    forall i {:trigger t'.slots[i]} {:trigger t'.holders[i]} | 0 <= i < |t'.slots| ensures SlotOk(t'.slots[i], t'.holders[i]) {
      assert i != e.s ==> t'.slots[i] == t.slots[i] && t'.holders[i] == t.holders[i];
      assert SlotOk(t.slots[i], t.holders[i]);
    }
  }

  // ---- runs

  ghost predicate Moves(t: Table, e: Event, t': Table) {
    Good(t) ==> Enabled(t, e) && t' == Next(t, e)
  }

  ghost predicate IsTrace(ts: seq<Table>, es: seq<Event>) {
    && |ts| == |es| + 1
    && |ts[0].slots| == |ts[0].holders| && ts[0].detached == [] && ts[0].serial == 0
    && (forall i {:trigger ts[0].slots[i]} :: 0 <= i < |ts[0].slots| ==> ts[0].slots[i] == Slot(None, 0, false))
    && (forall i {:trigger ts[0].holders[i]} :: 0 <= i < |ts[0].holders| ==> ts[0].holders[i] == {})
    && forall i {:trigger es[i]} :: 0 <= i < |es| ==> Moves(ts[i], es[i], ts[i + 1])
  }

  /** With threads taking, releasing, closing and allocating slots in any order, fd_used equals
      the number of holders, and no netconn is detached twice. */
  lemma {:induction false} TraceGood(ts: seq<Table>, es: seq<Event>, i: nat)
    requires IsTrace(ts, es) && i <= |es|
    ensures Good(ts[i])
  {
    hide Next;
    if i > 0 {
      TraceGood(ts, es, i - 1);
      assert Moves(ts[i - 1], es[i - 1], ts[i]);
      NextKeeps(ts[i - 1], es[i - 1]);
    } else {
      hide IncUsed;
      forall k {:trigger ts[0].slots[k]} | 0 <= k < |ts[0].slots| ensures SlotOk(ts[0].slots[k], ts[0].holders[k]) {
      }
    }
  }

  predicate GivesBack(e: Event, s: nat, use: nat) {
    (e.Release? || e.Close?) && e.s == s && e.use == use
  }

  /** While a thread holds a slot, the slot's netconn stays what it is: it is neither
      detached by another thread's close nor replaced by a new allocation. */
  lemma {:induction false} HeldConnStays(ts: seq<Table>, es: seq<Event>, i: nat, j: nat, s: nat, use: nat)
    requires IsTrace(ts, es) && i <= j <= |es| && s < |ts[i].slots| == |ts[i].holders| && use in ts[i].holders[s]
    requires forall k {:trigger es[k]} :: i <= k < j ==> !GivesBack(es[k], s, use)
    ensures s < |ts[j].slots| == |ts[j].holders| && use in ts[j].holders[s] && ts[j].slots[s].conn == ts[i].slots[s].conn
  {
    if i < j {
      HeldConnStays(ts, es, i, j - 1, s, use);
      TraceGood(ts, es, j - 1);
      assert Moves(ts[j - 1], es[j - 1], ts[j]);
      StepSlot(ts[j - 1], es[j - 1]);
      HolderCounts(ts[j - 1], s);
    }
  }

  /** Once a free is pending nobody gains the slot, and the last holder to leave completes the free;
      until alloc_socket takes the slot again, which it does only when nobody holds it. */
  lemma PendingStep(t: Table, e: Event)
    requires Good(t) && Enabled(t, e)
    ensures var s, t' := e.s, Next(t, e);
            && (t.slots[s].pending && e.Take? ==> t' == t)
            && (t.slots[s].pending && !e.Alloc? ==> t'.slots[s].pending && t'.holders[s] <= t.holders[s])
            && (t.slots[s].pending && t.slots[s].conn.Some? && (e.Release? || e.Close?) ==>
                  (t'.slots[s].conn.None? <==> t.holders[s] == {e.use}) && (t'.slots[s].conn.None? ==> t'.detached == t.detached + [t.slots[s].conn.value]))
            && (e.Alloc? ==> t' == t || (t.holders[s] == {} && t.slots[s].conn.None? && t'.holders[s] == {e.use}))
  {
    StepSlot(t, e);
    HolderCounts(t, e.s);
    assert SlotOk(t.slots[e.s], t.holders[e.s]);
    assert SlotOk(Next(t, e).slots[e.s], Next(t, e).holders[e.s]);
    if e.Release? || e.Close? {
      assert t.holders[e.s] == {e.use} <==> t.holders[e.s] - {e.use} == {};
    }
  }

  // ---- the assertion of sock_inc_used_locked

  /** fd_used != 0 while a free is pending. */
  predicate LockedAssertion(k: Slot) {
    k.pending ==> k.fdUsed != 0
  }

  /** It fails exactly on a slot whose pending free has been completed and that is not reallocated. */
  lemma LockedAssertionIff(t: Table, s: nat)
    requires Good(t) && s < |t.slots|
    ensures LockedAssertion(t.slots[s]) <==> !(t.slots[s].pending && t.slots[s].conn.None?)
  {
  }

  /** Four steps lead there: a socket is opened, a second thread uses it, the
      first one closes it, and the second one leaves. */
  lemma LockedAssertionCanFail(t: Table)
    requires Good(t) && 0 < |t.slots| && t.slots[0] == Slot(None, 0, false) && t.holders[0] == {}
    ensures Enabled(t, Alloc(0, 1)) && Good(Next(t, Alloc(0, 1)))
    ensures var t1 := Next(t, Alloc(0, 1)); Enabled(t1, Take(0, 2)) && Good(Next(t1, Take(0, 2)))
    ensures var t2 := Next(Next(t, Alloc(0, 1)), Take(0, 2)); Enabled(t2, Close(0, 1)) && Good(Next(t2, Close(0, 1)))
    ensures var t3 := Next(Next(Next(t, Alloc(0, 1)), Take(0, 2)), Close(0, 1));
            Enabled(t3, Release(0, 2)) && Good(Next(t3, Release(0, 2))) && !LockedAssertion(Next(t3, Release(0, 2)).slots[0])
  {
    NextKeeps(t, Alloc(0, 1));
    var t1 := Next(t, Alloc(0, 1));
    assert t1.holders[0] == {1};
    NextKeeps(t1, Take(0, 2));
    var t2 := Next(t1, Take(0, 2));
    assert t2.holders[0] == {1, 2} && t2.slots[0] == Slot(Some(t.serial), 2, false);
    NextKeeps(t2, Close(0, 1));
    var t3 := Next(t2, Close(0, 1));
    assert t3.holders[0] == {2} && t3.slots[0] == Slot(Some(t.serial), 1, true);
    NextKeeps(t3, Release(0, 2));
  }

  // ---- the table in place

  class SocketTable {
    const slots: array<Slot>
    /** Who holds which slot, and which netconns there were. */
    ghost var holders: seq<set<nat>>
    ghost var detached: seq<nat>
    ghost var serial: nat

    ghost function Now(): Table
      reads this, slots
    {
      Table(slots[..], holders, detached, serial)
    }

    ghost predicate Valid()
      reads this, slots
    {
      Good(Now())
    }

    constructor (n: nat)
      ensures Valid() && slots.Length == n && fresh(slots) && detached == [] && serial == 0
      ensures forall i :: 0 <= i < n ==> slots[i] == Slot(None, 0, false) && holders[i] == {}
    {
      slots := new Slot[n](_ => Slot(None, 0, false));
      holders, detached, serial := seq(n, _ => {}), [], 0;
      new;
      assert forall i :: 0 <= i < n ==> SlotOk(slots[i], holders[i]);
    }

    /** sock_inc_used: a slot is gained exactly while no free of it is pending. */
    method SockIncUsed(s: nat, ghost use: nat) returns (ok: bool)
      requires Valid() && s < slots.Length && use !in holders[s] && |holders[s]| + 1 < USED_LIMIT
      modifies slots, `holders
      ensures Valid() && |holders| == |old(holders)| && Now() == Next(old(Now()), Take(s, use))
      ensures ok <==> !old(slots[s]).pending
      ensures holders == if ok then old(holders)[s := old(holders[s]) + {use}] else old(holders)
      ensures forall i :: 0 <= i < slots.Length ==> slots[i].conn == old(slots[i]).conn && slots[i].pending == old(slots[i]).pending
    {
      hide Unique;
      ghost var t := Now();
      NextKeeps(t, Take(s, use));
      if slots[s].pending {
        assert t.slots[s := t.slots[s]] == t.slots;
        return false;
      }
      slots[s] := slots[s].(fdUsed := (slots[s].fdUsed + 1) % USED_LIMIT);
      holders := holders[s := holders[s] + {use}];
      ok := true;
    }

    /** free_socket_locked: the netconn comes back exactly to the last holder; otherwise the free is left pending. */
    method FreeSocketLocked(s: nat, ghost use: nat) returns (conn: Option<nat>)
      requires Valid() && s < slots.Length && use in holders[s] && slots[s].conn.Some?
      modifies slots, `holders, `detached
      ensures Valid() && Now() == Next(old(Now()), Close(s, use)) && holders == old(holders)[s := old(holders[s]) - {use}]
      ensures conn == if old(holders[s]) == {use} then old(slots[s]).conn else None
      ensures if conn.Some? then slots[s].conn.None? else slots[s].conn == old(slots[s]).conn && slots[s].pending
      ensures detached == Log(old(Now()), conn) && forall i :: 0 <= i < slots.Length && i != s ==> slots[i] == old(slots[i])
    {
      hide Unique, SlotOk;
      ghost var t := Now();
      NextKeeps(t, Close(s, use));
      LastHolder(t, s, use);
      slots[s] := slots[s].(fdUsed := slots[s].fdUsed - 1);
      holders := holders[s := holders[s] - {use}];
      if slots[s].fdUsed > 0 {
        slots[s] := slots[s].(pending := true);
        assert slots[..] == t.slots[s := FreeLocked(t.slots[s]).0];
        return None;
      }
      conn := slots[s].conn;
      slots[s] := slots[s].(conn := None);
      assert slots[..] == t.slots[s := FreeLocked(t.slots[s]).0];
      detached := Log(t, conn);
    }

    /** done_socket: the last holder completes a pending free, and nobody else does. */
    method DoneSocket(s: nat, ghost use: nat) returns (conn: Option<nat>)
      requires Valid() && s < slots.Length && use in holders[s]
      modifies slots, `holders, `detached
      ensures Valid() && Now() == Next(old(Now()), Release(s, use)) && holders == old(holders)[s := old(holders[s]) - {use}]
      ensures conn == if old(holders[s]) == {use} && old(slots[s]).pending then old(slots[s]).conn else None
      ensures if conn.Some? then slots[s].conn.None? else slots[s].conn == old(slots[s]).conn
      ensures detached == Log(old(Now()), conn) && forall i :: 0 <= i < slots.Length && i != s ==> slots[i] == old(slots[i])
    {
      hide Unique, SlotOk;
      ghost var t := Now();
      NextKeeps(t, Release(s, use));
      LastHolder(t, s, use);
      conn := None;
      slots[s] := slots[s].(fdUsed := slots[s].fdUsed - 1);
      if slots[s].fdUsed == 0 && slots[s].pending {
        slots[s] := slots[s].(fdUsed := 1);
        assert slots[..] == t.slots;
        conn := FreeSocketLocked(s, use);
      } else {
        holders := holders[s := holders[s] - {use}];
      }
    }

    /** alloc_socket when no other thread runs in between: the first slot that nobody holds and that has no netconn. */
    method AllocSocket(newconn: nat, ghost use: nat) returns (s: int)
      requires Valid() && newconn == serial
      modifies slots, `holders, `serial
      ensures Valid() && detached == old(detached)
      ensures s == -1 ==> slots[..] == old(slots[..]) && holders == old(holders) && forall i :: 0 <= i < slots.Length ==> !Allocatable(slots[i])
      ensures s != -1 ==>
                && 0 <= s < slots.Length && old(slots[s]).conn.None? && old(holders[s]) == {}
                && (forall i :: 0 <= i < s ==> !Allocatable(old(slots[i])))
                && slots[..] == old(slots[..])[s := Slot(Some(newconn), 1, false)] && holders == old(holders)[s := {use}]
                && serial == old(serial) + 1
    {
      ghost var t := Now();
      for i := 0 to slots.Length
        invariant Now() == t
        invariant forall j :: 0 <= j < i ==> !Allocatable(slots[j])
      {
        if slots[i].conn.None? && slots[i].fdUsed == 0 {
          HolderCounts(t, i);
          NextKeeps(t, Alloc(i, use));
          slots[i] := Slot(Some(newconn), 1, false);
          assert holders[i] + {use} == {use};
          holders := holders[i := {use}];
          serial := serial + 1;
          assert Now() == Next(t, Alloc(i, use));
          return i;
        }
      }
      s := -1;
    }
  }

  lemma LastHolder(t: Table, s: nat, use: nat)
    requires Good(t) && s < |t.slots| && use in t.holders[s]
    ensures t.slots[s].fdUsed == |t.holders[s]| > 0
    ensures t.slots[s].fdUsed == 1 <==> t.holders[s] == {use}
    ensures t.slots[s].pending ==> t.slots[s].conn.Some?
  {
    assert SlotOk(t.slots[s], t.holders[s]);
    assert |t.holders[s] - {use}| == |t.holders[s]| - 1;
    if t.slots[s].fdUsed == 1 { assert t.holders[s] - {use} == {}; }
  }
}
