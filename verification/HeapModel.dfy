/**
 The heap of mem.c seen as values: the `next`, `prev` and `used` fields of a
 struct mem at every byte offset into `ram`, and the set of offsets at which a
 block starts. Every rule the allocator keeps is a predicate here, and every
 way it rewrites the links is Join, Split or a change of one `used` flag.
*/
module HeapModel {

  /** Compile-time configuration: MEM_ALIGNMENT, SIZEOF_STRUCT_MEM,
      MIN_SIZE_ALIGNED, MEM_SIZE_ALIGNED, and the number of values of mem_size_t. */
  datatype Config = Config(align: nat, hdr: nat, min: nat, size: nat, limit: nat)

  /** x is a multiple of a, by repeated subtraction. */
  predicate Multiple(a: nat, x: nat)
    requires a > 0
  {
    x == 0 || (a <= x && Multiple(a, x - a))
  }

  predicate Aligned(c: Config, x: nat)
    requires c.align > 0
  {
    Multiple(c.align, x)
  }

  predicate ValidConfig(c: Config) {
    && c.align > 0 && c.hdr > 0 && c.min > 0
    && Aligned(c, c.hdr) && Aligned(c, c.min) && Aligned(c, c.size) && Aligned(c, c.limit)
    && c.hdr + c.min <= c.size
    && c.size + 2 * c.hdr + c.min <= c.limit
  }

  /** struct mem at every offset. Only the values at block starts are meaningful:
      the bytes of any other offset belong to a user or are leftovers. */
  datatype Heads = Heads(next: seq<nat>, prev: seq<nat>, used: seq<bool>)

  ghost predicate Sized(c: Config, h: Heads) {
    |h.next| == |h.prev| == |h.used| == c.size + 1
  }

  // ---- the rules

  /** Block starts lie in the heap and are aligned; 0 and `ram_end` are starts. */
  ghost predicate Bounds(c: Config, starts: set<nat>)
    requires c.align > 0
  {
    && 0 in starts && c.size in starts
    && forall p :: p in starts ==> p <= c.size && Aligned(c, p)
  }

  /** `next` leads to a start further up, past a header and MIN_SIZE_ALIGNED bytes. */
  ghost predicate Forward(c: Config, next: seq<nat>, starts: set<nat>)
    requires |next| == c.size + 1
  {
    forall p {:trigger next[p]} :: p in starts && p < c.size ==> p + c.hdr + c.min <= next[p] && next[p] in starts
  }

  /** No block starts inside another one. */
  ghost predicate Gapless(c: Config, next: seq<nat>, starts: set<nat>)
    requires |next| == c.size + 1
  {
    forall p: nat, q: nat {:trigger Between(p, q)} ::
      p in starts && q in starts && Between(p, q) && q <= c.size ==> next[p] <= q
  }

  ghost predicate Between(p: nat, q: nat) { p < q }

  /** `prev` is the inverse of `next`, except at both ends of the heap. */
  ghost predicate Backward(c: Config, next: seq<nat>, prev: seq<nat>, starts: set<nat>)
    requires |next| == |prev| == c.size + 1
  {
    && prev[0] == 0
    && forall p {:trigger prev[p]} :: p in starts && 0 < p < c.size ==>
         prev[p] in starts && prev[p] < p && next[prev[p]] == p
  }

  /** The blocks tile [0, size), their links agree in both directions, and
      `ram_end` links to itself and counts as used. */
  ghost predicate Tiling(c: Config, h: Heads, starts: set<nat>)
    requires c.align > 0
  {
    && Sized(c, h) && Bounds(c, starts)
    && Forward(c, h.next, starts) && Gapless(c, h.next, starts) && Backward(c, h.next, h.prev, starts)
    && h.next[c.size] == h.prev[c.size] == c.size && h.used[c.size]
  }

  /** No free block is followed by another one (around `hole` this may fail). */
  ghost predicate NoTwoFreeExcept(c: Config, next: seq<nat>, used: seq<bool>, starts: set<nat>, hole: int)
    requires |next| == |used| == c.size + 1
  {
    forall p {:trigger next[p]} :: p in starts && p < c.size && !used[p] && p != hole && next[p] != hole ==>
      next[p] <= c.size && used[next[p]]
  }

  ghost predicate NoTwoFree(c: Config, next: seq<nat>, used: seq<bool>, starts: set<nat>)
    requires |next| == |used| == c.size + 1
  {
    NoTwoFreeExcept(c, next, used, starts, -1)
  }

  /** `lfree` is the lowest free block, or `ram_end` when there is none; while an
      allocation is still being finished it may also be the block just taken. */
  ghost predicate Lowest(c: Config, used: seq<bool>, starts: set<nat>, lfree: int, taken: set<nat>)
    requires |used| == c.size + 1
  {
    && 0 <= lfree <= c.size && lfree in starts
    && (forall q :: q in starts && q < lfree ==> used[q])
    && (lfree == c.size || !used[lfree] || lfree in taken)
  }

  /** The starts of the allocated blocks. */
  ghost function Blocks(c: Config, used: seq<bool>, starts: set<nat>): set<nat>
    requires |used| == c.size + 1
  {
    set p | p in starts && p < c.size && used[p]
  }

  /** Total extent of a set of blocks. */
  ghost function Extent(blocks: set<nat>, next: seq<nat>): int
    requires forall p :: p in blocks ==> p < |next|
    decreases |blocks|
  {
    if blocks == {} then 0 else var p :| p in blocks; next[p] - p + Extent(blocks - {p}, next)
  }

  /** These blocks end where they did before. */
  ghost predicate SameEnds(blocks: set<nat>, next: seq<nat>, next': seq<nat>) {
    forall p {:trigger next'[p]} :: p in blocks && p < |next| && p < |next'| ==> next'[p] == next[p]
  }

  /** Block p is free and offers `size` bytes of user data. */
  ghost predicate Fits(c: Config, h: Heads, starts: set<nat>, p: nat, size: nat)
    requires Sized(c, h)
  {
    p in starts && p < c.size && !h.used[p] && h.next[p] - (p + c.hdr) >= size
  }

  // ---- the ways headers are rewritten

  function Mark(h: Heads, p: nat, used: bool): Heads
    requires p < |h.used|
  {
    h.(used := h.used[p := used])
  }

  /** Combine p with the block behind it. */
  function Join(c: Config, h: Heads, p: nat): Heads
    requires p < |h.next| == |h.prev| && h.next[p] < |h.next| && h.next[h.next[p]] < |h.next|
  {
    var m := h.next[h.next[p]];
    Heads(h.next[p := m], if m == c.size then h.prev else h.prev[m := p], h.used)
  }

  /** Cut p at q, leaving a free block at q. */
  function Split(c: Config, h: Heads, p: nat, q: nat): Heads
    requires p < |h.next| == |h.prev| == |h.used| && q < |h.next| && h.next[p] < |h.next|
  {
    var m := h.next[p];
    Heads(h.next[q := m][p := q],
          if m == c.size then h.prev[q := p] else h.prev[q := p][m := q],
          h.used[q := false])
  }

  // ---- what they keep

  lemma {:induction false} MultipleSum(a: nat, x: nat, y: nat)
    requires a > 0 && Multiple(a, x) && Multiple(a, y)
    ensures Multiple(a, x + y)
  {
    if x != 0 { MultipleSum(a, x - a, y); }
  }

  lemma JoinForward(c: Config, next: seq<nat>, starts: set<nat>, p: nat, n: nat, m: nat)
    requires |next| == c.size + 1 && Forward(c, next, starts) && Gapless(c, next, starts)
    requires p in starts && n in starts && p < n < m <= c.size && next[p] == n && next[n] == m
    ensures Forward(c, next[p := m], starts - {n}) && Gapless(c, next[p := m], starts - {n})
  {
    var next' := next[p := m];
    forall q {:trigger next'[q]} | q in starts - {n} && q < c.size
      ensures q + c.hdr + c.min <= next'[q] && next'[q] in starts - {n}
    {
      assert Between(q, p) || Between(p, q) || p == q;
    }
    forall a: nat, b: nat {:trigger Between(a, b)} | a in starts - {n} && b in starts - {n} && Between(a, b) && b <= c.size
      ensures next'[a] <= b
    {
      assert Between(n, b) || b <= n;
      assert Between(p, b) || b <= p;
    }
  }

  lemma JoinTiling(c: Config, h: Heads, starts: set<nat>, p: nat)
    requires ValidConfig(c) && Tiling(c, h, starts)
    requires p in starts && p < c.size && h.next[p] < c.size
    ensures Tiling(c, Join(c, h, p), starts - {h.next[p]})
  {
    var n := h.next[p];
    var m := h.next[n];
    JoinForward(c, h.next, starts, p, n, m);
    var h' := Join(c, h, p);
    forall q {:trigger h'.prev[q]} | q in starts - {n} && 0 < q < c.size
      ensures h'.prev[q] in starts - {n} && h'.prev[q] < q && h'.next[h'.prev[q]] == q
    {
      assert h'.prev[q] == if q == m then p else h.prev[q];
    }
  }

  lemma SplitForward(c: Config, next: seq<nat>, starts: set<nat>, p: nat, q: nat, m: nat)
    requires |next| == c.size + 1 && Forward(c, next, starts) && Gapless(c, next, starts)
    requires p in starts && m in starts && p + c.hdr + c.min <= q && q + c.hdr + c.min <= m <= c.size && next[p] == m
    requires c.hdr > 0
    ensures q !in starts
    ensures Forward(c, next[q := m][p := q], starts + {q}) && Gapless(c, next[q := m][p := q], starts + {q})
  {
    var next' := next[q := m][p := q];
    assert q !in starts by { assert Between(p, q); }
    forall a: nat, b: nat {:trigger Between(a, b)} | a in starts + {q} && b in starts + {q} && Between(a, b) && b <= c.size
      ensures next'[a] <= b
    {
      assert Between(p, b) || b <= p;
      assert Between(a, p) || p <= a;
      assert Between(p, a) || a <= p;
    }
  }

  lemma SplitTiling(c: Config, h: Heads, starts: set<nat>, p: nat, q: nat)
    requires ValidConfig(c) && Tiling(c, h, starts)
    requires p in starts && p < c.size && Aligned(c, q)
    requires p + c.hdr + c.min <= q && q + c.hdr + c.min <= h.next[p]
    ensures q !in starts && Tiling(c, Split(c, h, p, q), starts + {q})
  {
    var m := h.next[p];
    SplitForward(c, h.next, starts, p, q, m);
    var h' := Split(c, h, p, q);
    forall x {:trigger h'.prev[x]} | x in starts + {q} && 0 < x < c.size
      ensures h'.prev[x] in starts + {q} && h'.prev[x] < x && h'.next[h'.prev[x]] == x
    {
      assert h'.prev[x] == if x == q then p else if x == m then q else h.prev[x];
    }
  }

  /** Only one block leads to p. */
  lemma OnePredecessor(c: Config, h: Heads, starts: set<nat>, p: nat)
    requires ValidConfig(c) && Tiling(c, h, starts) && p in starts && 0 < p < c.size
    ensures forall q {:trigger h.next[q]} :: q in starts && q < c.size && h.next[q] == p ==> q == h.prev[p]
  {
    forall q {:trigger h.next[q]} | q in starts && q < c.size && q != h.prev[p] ensures h.next[q] != p {
      var a := h.prev[p];
      assert a in starts && h.next[a] == p;
      assert Between(a, q) || Between(q, a);
    }
  }

  lemma NextPointsBack(c: Config, h: Heads, starts: set<nat>, p: nat)
    requires ValidConfig(c) && Tiling(c, h, starts) && p in starts && p < c.size && h.next[p] < c.size
    ensures h.prev[h.next[p]] == p
  {
    OnePredecessor(c, h, starts, h.next[p]);
  }

  /** Freed block p, followed by a used block, is swallowed by the block o in front of it. */
  lemma PlugBackward(c: Config, next: seq<nat>, used: seq<bool>, starts: set<nat>, o: nat, p: nat, m: nat)
    requires |next| == |used| == c.size + 1 && o < p < m <= c.size && o in starts && p in starts
    requires NoTwoFreeExcept(c, next, used, starts, p) && next[p] == m && used[m]
    requires forall q {:trigger next[q]} :: q in starts && q < c.size && next[q] == p ==> q == o
    ensures NoTwoFree(c, next[o := m], used, starts - {p})
  {
  }

  /** Used block p gives its free successor n the bytes from q on. */
  lemma MoveTiling(c: Config, h: Heads, starts: set<nat>, p: nat, q: nat)
    requires ValidConfig(c) && Tiling(c, h, starts)
    requires p in starts && p < c.size && Aligned(c, q)
    requires p + c.hdr + c.min <= q < h.next[p] && h.next[p] < c.size
    ensures var n := h.next[p];
            && h.next[n] <= c.size && q !in starts
            && Tiling(c, Join(c, h, p), starts - {n}) && q + c.hdr + c.min <= Join(c, h, p).next[p]
            && Tiling(c, Split(c, Join(c, h, p), p, q), starts - {n} + {q})
  {
    JoinTiling(c, h, starts, p);
    assert h.next[h.next[p]] > h.next[p];
    SplitTiling(c, Join(c, h, p), starts - {h.next[p]}, p, q);
  }

  /** ... and it stays the case that no free block is next to another, and which one is lowest. */
  lemma MoveOrder(c: Config, h: Heads, starts: set<nat>, p: nat, q: nat, lfree: int, taken: set<nat>)
    requires Sized(c, h) && p in starts && p < c.size && q !in starts && p < q < h.next[p] < c.size
    requires h.next[p] in starts && h.next[p] < h.next[h.next[p]] <= c.size
    requires Forward(c, h.next, starts) && Gapless(c, h.next, starts)
    requires NoTwoFree(c, h.next, h.used, starts) && Lowest(c, h.used, starts, lfree, taken)
    requires h.used[p] && p !in taken && !h.used[h.next[p]]
    ensures var n, h' := h.next[p], Split(c, Join(c, h, p), p, q);
            && NoTwoFree(c, h'.next, h'.used, starts - {n} + {q})
            && Lowest(c, h'.used, starts - {n} + {q}, if lfree == n then q else lfree, taken)
  {
    var n := h.next[p];
    assert h.used[h.next[n]];
    assert lfree <= n;
    if lfree != n { assert lfree == p || Between(lfree, p) || Between(p, lfree); }
  }

  /** A free block at q is cut off used block p, whose successor is used. */
  lemma CutOrder(c: Config, h: Heads, starts: set<nat>, p: nat, q: nat, lfree: int, taken: set<nat>)
    requires Sized(c, h) && p in starts && p < c.size && q !in starts && p < q < h.next[p] <= c.size
    requires Forward(c, h.next, starts) && NoTwoFree(c, h.next, h.used, starts) && Lowest(c, h.used, starts, lfree, taken)
    requires h.used[p] && h.used[h.next[p]]
    ensures var h' := Split(c, h, p, q);
            && NoTwoFree(c, h'.next, h'.used, starts + {q})
            && Lowest(c, h'.used, starts + {q}, if q < lfree then q else lfree, taken)
  {
  }

  // ---- the total extent of the allocated blocks

  lemma {:induction false} ExtentRemove(blocks: set<nat>, next: seq<nat>, p: nat)
    requires p in blocks && forall q :: q in blocks ==> q < |next|
    ensures Extent(blocks, next) == Extent(blocks - {p}, next) + next[p] - p
    decreases |blocks|
  {
    var q :| q in blocks && Extent(blocks, next) == next[q] - q + Extent(blocks - {q}, next);
    if q != p {
      ExtentRemove(blocks - {q}, next, p);
      ExtentRemove(blocks - {p}, next, q);
      assert blocks - {q} - {p} == blocks - {p} - {q};
    }
  }

  lemma {:induction false} ExtentSame(blocks: set<nat>, next: seq<nat>, next': seq<nat>)
    requires (forall q :: q in blocks ==> q < |next| && q < |next'|) && SameEnds(blocks, next, next')
    ensures Extent(blocks, next') == Extent(blocks, next)
    decreases |blocks|
  {
    if blocks != {} {
      var q :| q in blocks;
      ExtentSame(blocks - {q}, next, next');
      ExtentRemove(blocks, next, q);
      ExtentRemove(blocks, next', q);
    }
  }

  // ---- sizes

  /** The least multiple of a that is not below x: what LWIP_MEM_ALIGN_SIZE computes
      before the result is cut down to mem_size_t. */
  function RoundUp(a: nat, x: nat): (r: nat)
    requires a > 0
    ensures Multiple(a, r) && x <= r < x + a
  {
    if x == 0 then 0 else if x <= a then (assert Multiple(a, a - a); a) else a + RoundUp(a, x - a)
  }

  /** The block size mem_malloc and mem_trim work with: aligned, at least
      MIN_SIZE_ALIGNED, and modulo the width of mem_size_t. */
  function BlockSize(c: Config, x: nat): (r: nat)
    requires ValidConfig(c) && x < c.limit
  {
    var up := RoundUp(c.align, x);
    var cut := if up < c.limit then up else up - c.limit;
    if cut < c.min then c.min else cut
  }

  lemma BlockSizeMin(c: Config, x: nat)
    requires ValidConfig(c) && x < c.limit
    ensures BlockSize(c, x) >= c.min
  {
  }

  /** Both tests behind the rounding: too big, or wrapped around. */
  predicate SizeRefused(c: Config, x: nat)
    requires ValidConfig(c) && x < c.limit
  {
    BlockSize(c, x) > c.size || BlockSize(c, x) < x
  }

  lemma {:induction false} MultipleGap(a: nat, x: nat, y: nat)
    requires a > 0 && Multiple(a, x) && Multiple(a, y) && x < y
    ensures x + a <= y
  {
    if x != 0 { MultipleGap(a, x - a, y - a); }
  }

  /** A size is refused exactly when its true rounding exceeds the heap, wrap-around
      included; an accepted one has been rounded faithfully. */
  lemma SizeRefusedIff(c: Config, x: nat)
    requires ValidConfig(c) && x < c.limit
    ensures SizeRefused(c, x) <==> RoundUp(c.align, x) > c.size
    ensures !SizeRefused(c, x) ==>
              && BlockSize(c, x) == (if RoundUp(c.align, x) < c.min then c.min else RoundUp(c.align, x))
              && Aligned(c, BlockSize(c, x)) && x <= BlockSize(c, x)
  {
  }
}
