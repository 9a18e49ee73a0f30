/** The pool allocator of memp.c: a free list through the elements of one stretch of memory, and its
    cycle test. The link of an element is its first word, which belongs to the client while the
    element is allocated. */
module Pool {
  import opened Basics

  // ---- lists in memory

  /** NULL is -1. */
  ghost predicate In(all: set<int>, p: int) {
    p == -1 || p in all
  }

  /** The words at the places in `all` link to each other, or to NULL; the rest of the memory is arbitrary. */
  ghost predicate Links(mem: seq<int>, all: set<int>) {
    forall p {:trigger mem[p]} {:trigger p in all} :: p in all ==> 0 <= p < |mem| && In(all, mem[p])
  }

  /** The element k steps behind `head`; NULL stays NULL. */
  ghost function Walk(mem: seq<int>, all: set<int>, head: int, k: nat): (r: int)
    requires Links(mem, all) && In(all, head)
    ensures In(all, r)
    decreases k
  {
    if k == 0 || head == -1 then head else Walk(mem, all, mem[head], k - 1)
  }

  /** The list comes to an end. */
  ghost predicate Ends(mem: seq<int>, all: set<int>, head: int)
    requires Links(mem, all) && In(all, head)
  {
    exists k: nat :: Walk(mem, all, head, k) == -1
  }

  lemma {:induction false} WalkAdd(mem: seq<int>, all: set<int>, head: int, a: nat, b: nat)
    requires Links(mem, all) && In(all, head)
    ensures Walk(mem, all, head, a + b) == Walk(mem, all, Walk(mem, all, head, a), b)
    decreases a
  {
    if a > 0 && head != -1 { WalkAdd(mem, all, mem[head], a - 1, b); }
  }

  /** An element met twice is met for ever. */
  lemma {:induction false} MetTwice(mem: seq<int>, all: set<int>, head: int, a: nat, b: nat, k: nat)
    requires Links(mem, all) && -1 !in all && In(all, head) && a < b
    requires Walk(mem, all, head, a) == Walk(mem, all, head, b) != -1
    ensures Walk(mem, all, head, k) != -1
    decreases k
  {
    if k <= b {
      WalkAdd(mem, all, head, k, b - k);
    } else {
      WalkAdd(mem, all, head, b, k - b);
      WalkAdd(mem, all, head, a, k - b);
      MetTwice(mem, all, head, a, b, k - (b - a));
    }
  }

  // ---- more steps than elements

  lemma {:induction false} DistinctCard(s: seq<int>)
    requires forall i, j :: 0 <= i < j < |s| ==> s[i] != s[j]
    ensures |set x | x in s| == |s|
  {
    if s != [] {
      var t, l := s[..|s| - 1], s[|s| - 1];
      DistinctCard(t);
      assert (set x | x in s) == (set x | x in t) + {l};
      assert l !in t;
    }
  }

  /** More values than there is room for: two of them are equal. */
  lemma Pigeonhole(s: seq<int>, all: set<int>) returns (a: nat, b: nat)
    requires |s| > |all| && forall i :: 0 <= i < |s| ==> s[i] in all
    ensures a < b < |s| && s[a] == s[b]
  {
    if forall i, j :: 0 <= i < j < |s| ==> s[i] != s[j] {
      DistinctCard(s);
      SubsetCard((set x | x in s), all);
      assert false;
    }
    a, b :| 0 <= a < b < |s| && s[a] == s[b];
  }

  /** Around a cycle of length p entered at step a. */
  lemma {:induction false} Around(mem: seq<int>, all: set<int>, head: int, a: nat, p: nat, m: nat)
    requires Links(mem, all) && In(all, head) && Walk(mem, all, head, a) == Walk(mem, all, head, a + p)
    ensures Walk(mem, all, head, a) == Walk(mem, all, head, a + m * p)
    decreases m
  {
    if m > 0 {
      Around(mem, all, head, a, p, m - 1);
      assert m * p == (m - 1) * p + p;
      WalkAdd(mem, all, head, a, p);
      WalkAdd(mem, all, head, a + (m - 1) * p, p);
    }
  }

  /** The hare overtakes the tortoise before step b. */
  lemma Overtakes(mem: seq<int>, all: set<int>, head: int, a: nat, b: nat) returns (i: nat)
    requires Links(mem, all) && In(all, head) && a < b && Walk(mem, all, head, a) == Walk(mem, all, head, b)
    ensures i < b && Walk(mem, all, head, i) == Walk(mem, all, head, 2 * i + 1)
  {
    var p := b - a;
    var m := a / p + 1;
    // the first multiple of p above a
    i := m * p - 1;
    assert a / p * p <= a < a / p * p + p;
    assert m * p == a / p * p + p;
    WalkAdd(mem, all, head, a, i - a);
    WalkAdd(mem, all, head, b, i - a);
    assert Walk(mem, all, head, i) == Walk(mem, all, head, i + p);
    Around(mem, all, head, i, p, m);
  }

  /** On a list that does not end within its number of elements the two pointers meet. */
  lemma Meets(mem: seq<int>, all: set<int>, head: int) returns (i: nat)
    requires Links(mem, all) && -1 !in all && In(all, head) && Walk(mem, all, head, |all|) != -1
    ensures i < |all| && Walk(mem, all, head, i) == Walk(mem, all, head, 2 * i + 1)
  {
    var n := |all|;
    var s := seq(n + 1, k requires 0 <= k <= n => Walk(mem, all, head, k));
    forall k | 0 <= k < |s| ensures s[k] in all {
      WalkAdd(mem, all, head, k, n - k);
    }
    var a, b := Pigeonhole(s, all);
    i := Overtakes(mem, all, head, a, b);
  }

  // ---- memp_sanity

  /** Floyd's test: it ends on every list shape, and answers whether the list has an end. */
  method Sanity(tab: int, mem: array<int>, ghost all: set<int>) returns (ok: bool)
    requires Links(mem[..], all) && -1 !in all && In(all, tab)
    ensures ok <==> Ends(mem[..], all, tab)
  {
    hide Walk;
    ghost var l := mem[..];
    WalkStart(l, all, tab);
    var t := tab;
    if t != -1 {
      var h := mem[t];
      ghost var i: nat := 0;
      while t != -1 && h != -1
        invariant t == Walk(l, all, tab, i) && h == Walk(l, all, tab, 2 * i + 1)
        invariant forall j: nat :: j < i ==> !Meet(l, all, tab, j)
        invariant i <= |all|
        decreases |all| - i
      {
        if t == h {
          Endless(l, all, tab, i, 2 * i + 1);
          return false;
        }
        StepsLeft(l, all, tab, i);
        WalkStep(l, all, tab, i);
        WalkStep(l, all, tab, 2 * i + 1);
        WalkStep(l, all, tab, 2 * i + 2);
        t := mem[t];
        h := if mem[h] != -1 then mem[mem[h]] else -1;
        i := i + 1;
      }
    }
    ok := true;
  }

  /** The two pointers are at the same element after i rounds. */
  ghost predicate Meet(mem: seq<int>, all: set<int>, head: int, i: nat)
    requires Links(mem, all) && In(all, head)
  {
    Walk(mem, all, head, i) == Walk(mem, all, head, 2 * i + 1)
  }

  lemma WalkStart(mem: seq<int>, all: set<int>, head: int)
    requires Links(mem, all) && In(all, head)
    ensures Walk(mem, all, head, 0) == head && Walk(mem, all, head, 1) == if head == -1 then -1 else mem[head]
  {
  }

  lemma WalkStep(mem: seq<int>, all: set<int>, head: int, k: nat)
    requires Links(mem, all) && In(all, head)
    ensures var x := Walk(mem, all, head, k); Walk(mem, all, head, k + 1) == if x == -1 then -1 else mem[x]
  {
    WalkAdd(mem, all, head, k, 1);
    WalkStart(mem, all, Walk(mem, all, head, k));
  }

  lemma Endless(mem: seq<int>, all: set<int>, head: int, a: nat, b: nat)
    requires Links(mem, all) && -1 !in all && In(all, head) && a < b && Walk(mem, all, head, a) == Walk(mem, all, head, b) != -1
    ensures !Ends(mem, all, head)
  {
    forall k: nat ensures Walk(mem, all, head, k) != -1 {
      MetTwice(mem, all, head, a, b, k);
    }
  }

  /** While neither pointer has reached the end and they have not met, there are steps left to take. */
  lemma StepsLeft(mem: seq<int>, all: set<int>, head: int, i: nat)
    requires Links(mem, all) && -1 !in all && In(all, head) && i <= |all|
    requires forall j: nat :: j <= i ==> !Meet(mem, all, head, j)
    requires Walk(mem, all, head, i) != -1
    ensures i < |all|
  {
    if i == |all| {
      var j := Meets(mem, all, head);
      assert Meet(mem, all, head, j);
    }
  }

  // ---- the free list

  ghost function Members(unused: seq<int>): set<int> {
    set p | p in unused
  }

  /** The list that starts at tab runs through `unused`, in that order, and ends. */
  ghost predicate Chain(mem: seq<int>, tab: int, unused: seq<int>)
    decreases |unused|
  {
    if unused == [] then tab == -1
    else tab == unused[0] && 0 <= tab < |mem| && tab !in unused[1..] && Chain(mem, mem[tab], unused[1..])
  }

  lemma {:induction false} ChainLinks(mem: seq<int>, tab: int, unused: seq<int>)
    requires Chain(mem, tab, unused)
    ensures Links(mem, Members(unused)) && In(Members(unused), tab) && -1 !in unused
    decreases |unused|
  {
    if unused != [] {
      var rest := unused[1..];
      ChainLinks(mem, mem[tab], rest);
      assert unused == [tab] + rest;
      assert Members(unused) == Members(rest) + {tab};
    }
  }

  lemma {:induction false} ChainEnds(mem: seq<int>, all: set<int>, tab: int, unused: seq<int>)
    requires Links(mem, all) && In(all, tab) && Chain(mem, tab, unused)
    ensures Walk(mem, all, tab, |unused|) == -1
    decreases |unused|
  {
    if unused != [] { ChainEnds(mem, all, mem[tab], unused[1..]); }
  }

  lemma ListEnds(mem: seq<int>, tab: int, unused: seq<int>)
    requires Chain(mem, tab, unused)
    ensures var all := Members(unused); Links(mem, all) && In(all, tab) && -1 !in all && Ends(mem, all, tab)
  {
    hide Chain, Walk;
    ChainLinks(mem, tab, unused);
    ChainEnds(mem, Members(unused), tab, unused);
  }

  /** Words that are no link of the list do not matter to it. */
  lemma {:induction false} ChainKeeps(mem: seq<int>, tab: int, unused: seq<int>, w: int, x: int)
    requires Chain(mem, tab, unused) && 0 <= w < |mem| && w !in unused
    ensures Chain(mem[w := x], tab, unused)
    decreases |unused|
  {
    if unused != [] { ChainKeeps(mem, mem[tab], unused[1..], w, x); }
  }

  lemma PushChain(mem: seq<int>, tab: int, unused: seq<int>, e: int)
    requires Chain(mem, tab, unused) && 0 <= e < |mem| && e !in unused
    ensures Chain(mem[e := tab], e, [e] + unused)
  {
    ChainKeeps(mem, tab, unused, e, tab);
    assert ([e] + unused)[1..] == unused;
  }

  lemma PopChain(mem: seq<int>, tab: int, unused: seq<int>)
    requires Chain(mem, tab, unused)
    ensures tab == -1 <==> unused == []
    ensures tab != -1 ==> tab == unused[0] && 0 <= tab < |mem| && tab !in unused[1..] && Chain(mem, mem[tab], unused[1..])
  {
  }

  /** The walk to an element of the list does not depend on that element's own link. */
  lemma {:induction false} ChainWalk(mem: seq<int>, all: set<int>, tab: int, unused: seq<int>, j: nat, x: int)
    requires Chain(mem, tab, unused) && j < |unused| && 0 <= unused[j] < |mem|
    requires Links(mem[unused[j] := x], all) && In(all, tab) && -1 !in unused
    ensures Walk(mem[unused[j] := x], all, tab, j) == unused[j]
    decreases j
  {
    if j > 0 {
      assert unused[1..][j - 1] == unused[j];
      ChainWalk(mem, all, mem[tab], unused[1..], j - 1, x);
    }
  }

  /** An element freed a second time closes a circle. */
  lemma DoubleFreeCircle(mem: seq<int>, tab: int, unused: seq<int>, e: int)
    requires Chain(mem, tab, unused) && e in unused
    ensures 0 <= e < |mem|
    ensures var all, mem' := Members(unused), mem[e := tab]; -1 !in all && Links(mem', all) && In(all, e) && !Ends(mem', all, e)
  {
    hide Chain;
    ChainLinks(mem, tab, unused);
    assert e in Members(unused);
    var all, mem' := Members(unused), mem[e := tab];
    var j: nat :| j < |unused| && unused[j] == e;
    ChainWalk(mem, all, tab, unused, j, tab);
    WalkStart(mem', all, e);
    WalkAdd(mem', all, e, 1, j);
    Endless(mem', all, e, 0, j + 1);
  }

  // ---- the elements

  /** How many words n elements of `size` words take. */
  function Words(n: nat, size: nat): nat {
    if n == 0 then 0 else Words(n - 1, size) + size
  }

  /** Where the elements start, one behind the other. */
  ghost function Elements(num: nat, size: nat): (r: set<int>)
    ensures forall p {:trigger p in r} :: p in r ==> 0 <= p && p + size <= Words(num, size)
    ensures size > 0 ==> |r| == num
  {
    if num == 0 then {} else Elements(num - 1, size) + {Words(num - 1, size)}
  }

  /** Word w belongs to the element at e. */
  ghost predicate WordOf(e: int, size: nat, w: int) {
    e <= w < e + size
  }

  /** Elements do not overlap. */
  lemma {:induction false} ElementsDisjoint(num: nat, size: nat, p: int, q: int)
    requires p in Elements(num, size) && q in Elements(num, size) && p < q
    ensures p + size <= q
  {
    if q in Elements(num - 1, size) {
      if p in Elements(num - 1, size) { ElementsDisjoint(num - 1, size, p, q); }
    }
  }

  /** No word of one element is the link of another. */
  lemma NoForeignLink(num: nat, size: nat, e: int, w: int, q: int)
    requires e in Elements(num, size) && q in Elements(num, size) && WordOf(e, size, w) && q != e
    ensures !WordOf(q, size, w)
  {
    ElementsDisjoint(num, size, if e < q then e else q, if e < q then q else e);
  }

  /** Every element is unused or taken, none is both, and none is on the list twice. */
  ghost predicate Partition(elements: set<int>, unused: seq<int>, taken: set<int>) {
    && |unused| + |taken| == |elements|
    && (forall e :: e in unused ==> e in elements && e !in taken)
    && (forall e :: e in taken ==> e in elements)
    && (forall e :: e in elements ==> e in unused || e in taken)
  }

  lemma Pop(elements: set<int>, unused: seq<int>, taken: set<int>)
    requires Partition(elements, unused, taken) && unused != [] && unused[0] !in unused[1..]
    ensures Partition(elements, unused[1..], taken + {unused[0]}) && unused[0] !in taken && unused[0] in elements
  {
    assert unused == [unused[0]] + unused[1..];
    assert forall x :: x in unused <==> x == unused[0] || x in unused[1..];
    assert unused[0] in unused;
  }

  lemma HeldElement(elements: set<int>, unused: seq<int>, taken: set<int>, e: int)
    requires Partition(elements, unused, taken)
    ensures e in taken ==> e in elements && e !in unused
    ensures e in elements ==> e in taken || e in unused
  {
  }

  lemma Push(elements: set<int>, unused: seq<int>, taken: set<int>, e: int)
    requires Partition(elements, unused, taken) && e in taken
    ensures Partition(elements, [e] + unused, taken - {e})
  {
  }

  lemma PushNew(elements: set<int>, unused: seq<int>, e: int)
    requires Partition(elements, unused, {}) && e !in elements
    ensures Partition(elements + {e}, [e] + unused, {})
  {
  }

  // ---- the pool

  class MemPool {
    /** desc->tab, the memory by words, and the number and size of the elements. */
    var tab: int
    const mem: array<int>
    const num: nat
    const size: nat
    /** desc->stats */
    var used: int
    var max: int
    var err: nat
    ghost var unused: seq<int>
    ghost var taken: set<int>

    ghost predicate Valid()
      reads this, mem
    {
      && size > 0 && mem.Length == Words(num, size)
      && Chain(mem[..], tab, unused) && Partition(Elements(num, size), unused, taken)
      && used == |taken| <= max
    }

    /** memp_init_pool, whatever the memory holds. */
    constructor (num: nat, size: nat)
      requires size > 0
      ensures Valid() && fresh(mem) && this.num == num && this.size == size && taken == {} && max == err == 0
    {
      this.num, this.size := num, size;
      mem := new int[Words(num, size)];
      tab, used, max, err := -1, 0, 0, 0;
      unused, taken := [], {};
      new;
      LinkAll();
    }

    /** The loop of memp_init_pool. */
    method LinkAll()
      requires size > 0 && mem.Length == Words(num, size) && tab == -1 && unused == []
      modifies `tab, `unused, mem
      ensures Chain(mem[..], tab, unused) && Partition(Elements(num, size), unused, {})
    {
      hide Chain, Elements, Partition, Words;
      EmptyPool(mem[..], size);
      var memp := 0;
      for i := 0 to num
        invariant memp == Words(i, size) && Chain(mem[..], tab, unused) && Partition(Elements(i, size), unused, {})
      {
        memp := AddElement(i, memp);
      }
    }

    /** Element i is linked in front; next: where the one behind it starts. */
    method AddElement(i: nat, memp: int) returns (next: int)
      requires i < num && size > 0 && mem.Length == Words(num, size) && memp == Words(i, size)
      requires Chain(mem[..], tab, unused) && Partition(Elements(i, size), unused, {})
      modifies `tab, `unused, mem
      ensures Chain(mem[..], tab, unused) && Partition(Elements(i + 1, size), unused, {}) && next == Words(i + 1, size)
    {
      hide Chain, Elements, Partition;
      NextElement(i, num, size);
      NotOnList(Elements(i, size), unused, memp);
      PushChain(mem[..], tab, unused, memp);
      PushNew(Elements(i, size), unused, memp);
      ghost var was := mem[..];
      mem[memp] := tab;
      assert mem[..] == was[memp := tab];
      tab := memp;
      unused := [memp] + unused;
      next := memp + size;
    }

    /** do_memp_malloc_pool */
    method Malloc() returns (r: Option<int>)
      requires Valid()
      modifies this
      ensures Valid()
      ensures r.None? <==> old(unused) == []
      ensures r.None? ==> unused == old(unused) && taken == old(taken) && err == old(err) + 1
      ensures r.Some? ==> r.value in Elements(num, size) && r.value !in old(taken) && taken == old(taken) + {r.value}
      ensures r.Some? ==> unused == old(unused)[1..] && err == old(err)
      ensures max == if used > old(max) then used else old(max)
    {
      hide Partition, Chain, Elements;
      var memp := tab;
      PopChain(mem[..], tab, unused);
      if memp == -1 {
        err := err + 1;
        return None;
      }
      Pop(Elements(num, size), unused, taken);
      tab := mem[memp];
      used := used + 1;
      if used > max {
        max := used;
      }
      unused, taken := unused[1..], taken + {memp};
      r := Some(memp);
    }

    /** The holder of an element writes any word of it, the link word included. */
    method Write(e: int, w: int, x: int)
      requires Valid() && e in taken && WordOf(e, size, w)
      modifies mem
      ensures Valid() && mem[w] == x
      ensures forall v :: 0 <= v < mem.Length && v != w ==> mem[v] == old(mem[v])
      ensures forall f, v :: f in taken && f != e && WordOf(f, size, v) ==> 0 <= v < mem.Length && mem[v] == old(mem[v])
    {
      forall q | q in Elements(num, size) && q != e ensures !WordOf(q, size, w) { NoForeignLink(num, size, e, w, q); }
      ChainKeeps(mem[..], tab, unused, w, x);
      hide Chain;
      ghost var was := mem[..];
      mem[w] := x;
      assert mem[..] == was[w := x];
    }

    /** The element goes to the front of the list. */
    method PutBack(memp: int)
      requires Valid() && memp in Elements(num, size)
      modifies this, mem
      ensures 0 <= memp < mem.Length && tab == memp && mem[..] == old(mem[..])[memp := old(tab)] && max == old(max) && err == old(err)
      ensures memp in old(taken) ==> Valid() && unused == [memp] + old(unused) && taken == old(taken) - {memp}
      ensures memp !in old(taken) ==> memp in unused && unused == old(unused)
    {
      hide Chain, Elements;
      HeldElement(Elements(num, size), unused, taken, memp);
      ghost var was := mem[..];
      if memp in taken {
        Push(Elements(num, size), unused, taken, memp);
        PushChain(was, tab, unused, memp);
      }
      hide Partition;
      used := used - 1;
      mem[memp] := tab;
      assert mem[..] == was[memp := tab];
      tab := memp;
      if memp in taken {
        unused, taken := [memp] + unused, taken - {memp};
      }
    }

    /** memp_free_pool; sane: what memp_sanity then says. Freeing a free element once more is noticed by it. */
    method Free(memp: int) returns (sane: bool)
      requires Valid() && (memp == -1 || memp in Elements(num, size))
      modifies this, mem
      ensures sane <==> memp == -1 || memp in old(taken)
      ensures memp == -1 ==> Valid() && unused == old(unused) && taken == old(taken) && used == old(used)
      ensures memp != -1 && sane ==> Valid() && unused == [memp] + old(unused) && taken == old(taken) - {memp}
      ensures max == old(max) && err == old(err) && forall v :: 0 <= v < mem.Length && v != memp ==> mem[v] == old(mem[v])
      // what clients hold is as they left it
      ensures forall f, v :: f in old(taken) && f != memp && WordOf(f, size, v) ==> 0 <= v < mem.Length && mem[v] == old(mem[v])
    {
      hide Partition, Chain, Elements, Links, Ends, In, Members;
      forall f, v {:trigger WordOf(f, size, v)} | f in taken && f != memp && WordOf(f, size, v)
        ensures 0 <= v < mem.Length && v != memp
      {
        HeldElement(Elements(num, size), unused, taken, f);
        if memp != -1 { NoForeignLink(num, size, f, v, memp); }
      }
      if memp == -1 {
        return true;
      }
      ghost var held := memp in taken;
      if !held {
        HeldElement(Elements(num, size), unused, taken, memp);
        DoubleFreeCircle(mem[..], tab, unused, memp);
      }
      PutBack(memp);
      if held { ListEnds(mem[..], tab, unused); }
      sane := Sanity(tab, mem, Members(unused));
    }
  }

  lemma EmptyPool(mem: seq<int>, size: nat)
    ensures Chain(mem, -1, []) && Partition(Elements(0, size), [], {}) && Words(0, size) == 0
  {
  }

  lemma NotOnList(elements: set<int>, unused: seq<int>, e: int)
    requires Partition(elements, unused, {}) && e !in elements
    ensures e !in unused
  {
  }

  /** The next element is inside the memory and not one of those before. */
  lemma NextElement(i: nat, num: nat, size: nat)
    requires i < num && size > 0
    ensures Words(i + 1, size) == Words(i, size) + size <= Words(num, size) && Words(i, size) !in Elements(i, size)
    ensures Elements(i + 1, size) == Elements(i, size) + {Words(i, size)}
  {
    if i + 1 < num { NextElement(i, num - 1, size); }
  }
}
