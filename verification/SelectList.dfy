/** select_cb_list: the doubly linked list of waiting select calls, one node per thread. */
module SelectList {

  /** NULL is -1; next and prev are indexed by thread. */
  datatype List = List(head: int, next: seq<int>, prev: seq<int>)

  ghost predicate Distinct(order: seq<nat>) {
    forall i, j :: 0 <= i < j < |order| ==> order[i] != order[j]
  }

  function At(order: seq<nat>, i: int): int {
    if 0 <= i < |order| then order[i] else -1
  }

  /** The list holds exactly the nodes of `order`, in that order, linked both ways. */
  ghost predicate Represents(l: List, order: seq<nat>) {
    && |l.next| == |l.prev| && Distinct(order) && l.head == At(order, 0)
    && (forall i {:trigger order[i]} :: 0 <= i < |order| ==> order[i] < |l.next|)
    && (forall i {:trigger l.next[order[i]]} :: 0 <= i < |order| ==> l.next[order[i]] == At(order, i + 1))
    && (forall i {:trigger l.prev[order[i]]} :: 0 <= i < |order| ==> l.prev[order[i]] == At(order, i - 1))
  }

  /** lwip_link_select_cb, on a node cleared by its owner. */
  function Link(l: List, t: nat): List
    requires t < |l.next| == |l.prev| && -1 <= l.head < |l.next|
  {
    var prev := l.prev[t := -1];
    List(t, l.next[t := l.head], if l.head != -1 then prev[l.head := t] else prev)
  }

  /** lwip_unlink_select_cb */
  function Unlink(l: List, t: nat): List
    requires t < |l.next| == |l.prev| && -1 <= l.next[t] < |l.next|
    requires l.head != t ==> 0 <= l.prev[t] < |l.next|
  {
    var prev := if l.next[t] != -1 then l.prev[l.next[t] := l.prev[t]] else l.prev;
    if l.head == t then List(l.next[t], l.next, prev)
    else List(l.head, l.next[prev[t] := l.next[t]], prev)
  }

  lemma LinkKeeps(l: List, order: seq<nat>, t: nat)
    requires Represents(l, order) && t < |l.next| && t !in order
    ensures -1 <= l.head < |l.next| && Represents(Link(l, t), [t] + order)
  {
    var l', order' := Link(l, t), [t] + order;
    if order != [] { assert l.head == order[0]; }
    forall i {:trigger order'[i]} | 0 <= i < |order'|
      ensures order'[i] < |l'.next| && l'.next[order'[i]] == At(order', i + 1) && l'.prev[order'[i]] == At(order', i - 1)
    {
      if i > 0 {
        assert order'[i] == order[i - 1];
        assert At(order', i + 1) == At(order, i);
        assert At(order', i - 1) == if i == 1 then t else At(order, i - 2);
      }
    }
  }

  lemma UnlinkReady(l: List, order: seq<nat>, k: nat)
    requires Represents(l, order) && k < |order|
    ensures var t := order[k];
            t < |l.next| && -1 <= l.next[t] < |l.next| && (l.head != t ==> 0 <= l.prev[t] < |l.next|)
  {
  }

  /** The links of any other node after t has left. */
  lemma UnlinkOther(l: List, order: seq<nat>, k: nat, j: nat)
    requires Represents(l, order) && k < |order| && j < |order| && j != k
    requires var t := order[k]; t < |l.next| && -1 <= l.next[t] < |l.next| && (l.head != t ==> 0 <= l.prev[t] < |l.next|)
    ensures var l', x := Unlink(l, order[k]), order[j];
            && x < |l'.next| == |l'.prev| == |l.next|
            && l'.next[x] == At(order, if j + 1 == k then k + 1 else j + 1)
            && l'.prev[x] == At(order, if j == k + 1 then k - 1 else j - 1)
  {
  }

  lemma UnlinkKeeps(l: List, order: seq<nat>, k: nat)
    requires Represents(l, order) && k < |order|
    ensures var t := order[k];
            && t < |l.next| && -1 <= l.next[t] < |l.next| && (l.head != t ==> 0 <= l.prev[t] < |l.next|)
            && Represents(Unlink(l, t), order[..k] + order[k + 1..])
  {
    hide Unlink, Distinct;
    UnlinkReady(l, order, k);
    var l', order' := Unlink(l, order[k]), order[..k] + order[k + 1..];
    DistinctWithout(order, k);
    assert l'.head == At(order', 0) && |l'.next| == |l'.prev| by { UnlinkHead(l, order, k); }
    forall i {:trigger order'[i]} | 0 <= i < |order'|
      ensures order'[i] < |l'.next| && l'.next[order'[i]] == At(order', i + 1) && l'.prev[order'[i]] == At(order', i - 1)
    {
      var j := if i < k then i else i + 1;
      UnlinkOther(l, order, k, j);
      assert At(order', i + 1) == At(order, if j + 1 == k then k + 1 else j + 1);
      assert At(order', i - 1) == At(order, if j == k + 1 then k - 1 else j - 1);
    }
  }

  lemma DistinctWithout(order: seq<nat>, k: nat)
    requires Distinct(order) && k < |order|
    ensures Distinct(order[..k] + order[k + 1..])
    ensures order[k] !in order[..k] + order[k + 1..]
    ensures forall t :: t in order && t != order[k] ==> t in order[..k] + order[k + 1..]
  {
  }

  lemma UnlinkHead(l: List, order: seq<nat>, k: nat)
    requires Represents(l, order) && k < |order|
    requires var t := order[k]; t < |l.next| && -1 <= l.next[t] < |l.next| && (l.head != t ==> 0 <= l.prev[t] < |l.next|)
    ensures var l' := Unlink(l, order[k]);
            |l'.next| == |l'.prev| == |l.next| && l'.head == At(order[..k] + order[k + 1..], 0)
  {
  }

  /** The list in place. */
  class SelectCbList {
    var head: int
    const next: array<int>
    const prev: array<int>
    /** select_cb_ctr */
    var ctr: int

    ghost function Now(): List
      reads this, next, prev
    {
      List(head, next[..], prev[..])
    }

    ghost predicate Holds(order: seq<nat>)
      reads this, next, prev
    {
      next != prev && Represents(Now(), order)
    }

    constructor (threads: nat)
      ensures Holds([]) && next.Length == threads && fresh(next) && fresh(prev)
    {
      head, ctr := -1, 0;
      next, prev := new int[threads], new int[threads];
    }

    method LinkSelectCb(t: nat, ghost order: seq<nat>)
      requires Holds(order) && t < next.Length && t !in order
      modifies this, next, prev
      ensures Now() == Link(old(Now()), t) && Holds([t] + order) && ctr == old(ctr) + 1
    {
      LinkKeeps(Now(), order, t);
      prev[t] := -1;
      next[t] := head;
      if head != -1 {
        prev[head] := t;
      }
      head := t;
      ctr := ctr + 1;
    }

    method UnlinkSelectCb(t: nat, ghost order: seq<nat>, ghost k: nat)
      requires Holds(order) && k < |order| && order[k] == t
      modifies this, next, prev
      ensures Now() == Unlink(old(Now()), t) && Holds(order[..k] + order[k + 1..]) && ctr == old(ctr) + 1
    {
      UnlinkKeeps(Now(), order, k);
      if next[t] != -1 {
        prev[next[t]] := prev[t];
      }
      if head == t {
        head := next[t];
      } else {
        next[prev[t]] := next[t];
      }
      ctr := ctr + 1;
    }
  }
}
