/**
 The operations of mem.c as functions from heap state to heap state, and what
 each of them keeps. The class in Heap.dfy is proved to compute exactly these.
*/
module HeapOps {
  import opened Basics
  import opened HeapModel

  /** heads: struct mem at every offset; starts: where blocks start; freed: mem_free_count;
      held: blocks whose pointer some client holds; used, illegal, err: lwip_stats.mem. */
  datatype State = State(heads: Heads, starts: set<nat>, lfree: int, freed: bool, held: set<nat>,
                         used: int, illegal: nat, err: nat)

  ghost predicate Shaped(c: Config, s: State) {
    ValidConfig(c) && Tiling(c, s.heads, s.starts)
  }

  /** The allocated blocks. */
  ghost function BlocksOf(c: Config, s: State): set<nat>
    requires Sized(c, s.heads)
  {
    Blocks(c, s.heads.used, s.starts)
  }

  /** Links, coalescing and lfree. `taken` is empty, or the block an unfinished
      mem_malloc has marked as used but not yet handed to a client. */
  ghost predicate Ordered(c: Config, s: State, taken: set<nat>) {
    && Shaped(c, s)
    && NoTwoFree(c, s.heads.next, s.heads.used, s.starts)
    && Lowest(c, s.heads.used, s.starts, s.lfree, taken)
  }

  /** Clients hold the allocated blocks, and `used` is their total extent. */
  ghost predicate Accounted(blocks: set<nat>, next: seq<nat>, held: set<nat>, used: int, taken: set<nat>) {
    && (forall p :: p in blocks ==> p < |next|)
    && taken <= blocks && held == blocks - taken && used == Extent(blocks, next)
  }

  /** The heap invariant. */
  ghost predicate Inv(c: Config, s: State, taken: set<nat>) {
    Ordered(c, s, taken) && Accounted(BlocksOf(c, s), s.heads.next, s.held, s.used, taken)
  }

  /** The heap as mem_init leaves it. */
  ghost function Initial(c: Config, h: Heads): State
    requires ValidConfig(c) && Sized(c, h)
  {
    State(Heads(h.next[0 := c.size][c.size := c.size], h.prev[0 := 0][c.size := c.size], h.used[0 := false][c.size := true]),
          {0, c.size}, 0, false, {}, 0, 0, 0)
  }

  lemma InitialInv(c: Config, h: Heads)
    requires ValidConfig(c) && Sized(c, h)
    ensures Inv(c, Initial(c, h), {}) && BlocksOf(c, Initial(c, h)) == {}
  {
  }

  // ---- plug_holes

  /** Block p swallows the block behind it, and lfree moves along. */
  ghost function Absorb(c: Config, s: State, p: nat): (s': State)
    requires Shaped(c, s) && p in s.starts && p < c.size && s.heads.next[p] < c.size
    ensures Shaped(c, s')
  {
    JoinTiling(c, s.heads, s.starts, p);
    var n := s.heads.next[p];
    s.(heads := Join(c, s.heads, p), starts := s.starts - {n}, lfree := if s.lfree == n then p else s.lfree)
  }

  ghost function PlugForward(c: Config, s: State, p: nat): (s': State)
    requires Shaped(c, s) && p in s.starts && p < c.size
    ensures Shaped(c, s') && p in s'.starts
  {
    var n := s.heads.next[p];
    if p != n && !s.heads.used[n] && n != c.size then Absorb(c, s, p) else s
  }

  ghost function PlugHoles(c: Config, s: State, p: nat): (s': State)
    requires Shaped(c, s) && p in s.starts && p < c.size
    ensures Shaped(c, s')
  {
    var s1 := PlugForward(c, s, p);
    var o := s1.heads.prev[p];
    if o != p && !s1.heads.used[o] then Absorb(c, s1, o) else s1
  }

  /** Freed block p has swallowed the free block behind it. */
  lemma ForwardHalf(c: Config, s: State, p: nat, taken: set<nat>)
    requires Shaped(c, s) && p in s.starts && p < c.size && !s.heads.used[p]
    requires NoTwoFreeExcept(c, s.heads.next, s.heads.used, s.starts, p) && Lowest(c, s.heads.used, s.starts, s.lfree, taken)
    ensures var s' := PlugForward(c, s, p);
            && s'.heads.used == s.heads.used && s'.heads.used[s'.heads.next[p]]
            && NoTwoFreeExcept(c, s'.heads.next, s'.heads.used, s'.starts, p) && Lowest(c, s'.heads.used, s'.starts, s'.lfree, taken)
            && BlocksOf(c, s') == BlocksOf(c, s) && SameEnds(BlocksOf(c, s), s.heads.next, s'.heads.next)
            && s' == s.(heads := s'.heads, starts := s'.starts, lfree := s'.lfree)
  {
    var n := s.heads.next[p];
    assert !s.heads.used[n] ==> s.heads.next[n] > n;
  }

  /** Freed block p, followed by a used block, is swallowed by a free block in front of it. */
  lemma BackwardHalf(c: Config, s: State, p: nat, taken: set<nat>)
    requires Shaped(c, s) && p in s.starts && p < c.size && !s.heads.used[p] && s.heads.used[s.heads.next[p]]
    requires NoTwoFreeExcept(c, s.heads.next, s.heads.used, s.starts, p) && Lowest(c, s.heads.used, s.starts, s.lfree, taken)
    ensures var o := s.heads.prev[p];
            var s' := if o != p && !s.heads.used[o] then Absorb(c, s, o) else s;
            && NoTwoFree(c, s'.heads.next, s'.heads.used, s'.starts) && Lowest(c, s'.heads.used, s'.starts, s'.lfree, taken)
            && BlocksOf(c, s') == BlocksOf(c, s) && SameEnds(BlocksOf(c, s), s.heads.next, s'.heads.next)
            && s' == s.(heads := s'.heads, starts := s'.starts, lfree := s'.lfree)
  {
    var o := s.heads.prev[p];
    if p > 0 {
      OnePredecessor(c, s.heads, s.starts, p);
      if !s.heads.used[o] {
        PlugBackward(c, s.heads.next, s.heads.used, s.starts, o, p, s.heads.next[p]);
      }
    }
  }

  /** plug_holes leaves no free block next to another and changes no allocated block. */
  lemma PlugHolesKeeps(c: Config, s: State, p: nat, taken: set<nat>)
    requires Shaped(c, s) && p in s.starts && p < c.size && !s.heads.used[p]
    requires NoTwoFreeExcept(c, s.heads.next, s.heads.used, s.starts, p) && Lowest(c, s.heads.used, s.starts, s.lfree, taken)
    ensures var s' := PlugHoles(c, s, p);
            && Ordered(c, s', taken)
            && BlocksOf(c, s') == BlocksOf(c, s) && SameEnds(BlocksOf(c, s), s.heads.next, s'.heads.next)
            && s' == s.(heads := s'.heads, starts := s'.starts, lfree := s'.lfree)
  {
    ForwardHalf(c, s, p, taken);
    BackwardHalf(c, PlugForward(c, s, p), p, taken);
  }

  // ---- mem_free

  /** mem_link_valid */
  predicate LinkValid(c: Config, h: Heads, p: nat)
    requires |h.next| == |h.prev| == c.size + 1 && p <= c.size
  {
    && h.next[p] <= c.size && h.prev[p] <= c.size
    && (h.prev[p] == p || h.next[h.prev[p]] == p)
    && (h.next[p] == c.size || h.prev[h.next[p]] == p)
  }

  /** The checks of mem_free let the pointer at offset x through. */
  predicate Accepts(c: Config, h: Heads, x: int)
    requires |h.next| == |h.prev| == |h.used| == c.size + 1 && c.align > 0
  {
    && 0 <= x && Aligned(c, x)
    && c.hdr <= x && x + c.min <= c.size
    && h.used[x - c.hdr] && LinkValid(c, h, x - c.hdr)
  }

  lemma AcceptedInside(c: Config, h: Heads, x: int)
    requires ValidConfig(c) && Sized(c, h) && Accepts(c, h, x)
    ensures c.hdr <= x && x - c.hdr < c.size
  {
  }

  ghost function MarkedFree(c: Config, s: State, p: nat): (s': State)
    requires Shaped(c, s) && p in s.starts && p < c.size
    ensures Shaped(c, s')
  {
    s.(heads := Mark(s.heads, p, false), lfree := if p < s.lfree then p else s.lfree,
       used := s.used - (s.heads.next[p] - p), held := s.held - {p})
  }

  /** The part of mem_free behind its checks. */
  ghost function Release(c: Config, s: State, p: nat): (s': State)
    requires Shaped(c, s) && p in s.starts && p < c.size
  {
    PlugHoles(c, MarkedFree(c, s, p), p).(freed := true)
  }

  ghost function Free(c: Config, s: State, rmem: Option<int>): (s': State)
    requires Shaped(c, s)
    requires rmem.Some? && Accepts(c, s.heads, rmem.value) ==> rmem.value - c.hdr in s.starts
  {
    if rmem.None? then s
    else if Accepts(c, s.heads, rmem.value) then Release(c, s, rmem.value - c.hdr)
    else s.(illegal := s.illegal + 1)
  }

  lemma DropBlock(blocks: set<nat>, next: seq<nat>, next': seq<nat>, held: set<nat>, used: int, taken: set<nat>, p: nat)
    requires Accounted(blocks, next, held, used, taken) && p in held
    requires |next'| == |next| && SameEnds(blocks - {p}, next, next')
    ensures p in blocks && Accounted(blocks - {p}, next', held - {p}, used - (next[p] - p), taken)
  {
    ExtentRemove(blocks, next, p);
    ExtentSame(blocks - {p}, next, next');
  }

  /** mem_free of a held block: the invariant holds again, exactly that block is gone. */
  lemma ReleaseKeeps(c: Config, s: State, p: nat, taken: set<nat>)
    requires Inv(c, s, taken) && p in s.held
    ensures p in s.starts && p < c.size
    ensures var s' := Release(c, s, p);
            && Inv(c, s', taken)
            && BlocksOf(c, s') == BlocksOf(c, s) - {p} && SameEnds(BlocksOf(c, s'), s.heads.next, s'.heads.next)
            && s'.held == s.held - {p} && s'.freed && s'.illegal == s.illegal && s'.err == s.err
  {
    hide PlugHoles;
    var s1 := MarkedFree(c, s, p);
    assert BlocksOf(c, s1) == BlocksOf(c, s) - {p};
    PlugHolesKeeps(c, s1, p, taken);
    DropBlock(BlocksOf(c, s), s.heads.next, Release(c, s, p).heads.next, s.held, s.used, taken, p);
  }

  /** The pointer of every allocated block passes the checks of mem_free. */
  lemma HeldAccepted(c: Config, s: State, p: nat)
    requires Shaped(c, s) && p in BlocksOf(c, s)
    ensures Accepts(c, s.heads, p + c.hdr)
  {
    MultipleSum(c.align, p, c.hdr);
    assert p + c.hdr + c.min <= s.heads.next[p];
    if p > 0 {
      assert s.heads.prev[p] in s.starts;
    }
    if s.heads.next[p] < c.size {
      NextPointsBack(c, s.heads, s.starts, p);
    }
  }

  // ---- mem_trim

  /** The free block behind p moves down to q. */
  ghost function MoveDown(c: Config, s: State, p: nat, q: nat): State
    requires Shaped(c, s) && p in s.starts && p < c.size && p < q < s.heads.next[p]
  {
    var n := s.heads.next[p];
    State(Split(c, Join(c, s.heads, p), p, q), s.starts - {n} + {q}, if s.lfree == n then q else s.lfree,
          true, s.held, s.used - (n - q), s.illegal, s.err)
  }

  /** A free block appears at q, between p and the used block behind it. */
  ghost function CutOff(c: Config, s: State, p: nat, q: nat): State
    requires Shaped(c, s) && p in s.starts && p < c.size && p < q < s.heads.next[p]
  {
    State(Split(c, s.heads, p, q), s.starts + {q}, if q < s.lfree then q else s.lfree,
          true, s.held, s.used - (s.heads.next[p] - q), s.illegal, s.err)
  }

  /** Shrink allocated block p so that it ends at q, as far as there is room for a header. */
  ghost function Shrink(c: Config, s: State, p: nat, q: nat): (s': State)
    requires Shaped(c, s) && p in s.starts && p < c.size && p + c.hdr + c.min <= q < s.heads.next[p]
  {
    if !s.heads.used[s.heads.next[p]] then MoveDown(c, s, p, q)
    else if q + c.hdr + c.min <= s.heads.next[p] then CutOff(c, s, p, q)
    else s.(freed := true)
  }

  ghost function Trim(c: Config, s: State, x: int, newSize: nat): (r: (State, Option<int>))
    requires Shaped(c, s) && newSize < c.limit
    requires !SizeRefused(c, newSize) && 0 <= x < c.size ==> x >= c.hdr && x - c.hdr in s.starts
  {
    if SizeRefused(c, newSize) then (s, None)
    else if x < 0 || x >= c.size then (s.(illegal := s.illegal + 1), Some(x))
    else
      var p := x - c.hdr;
      var size := s.heads.next[p] - p - c.hdr;
      if BlockSize(c, newSize) > size then (s, None)
      else if BlockSize(c, newSize) == size then (s, Some(x))
      else (Shrink(c, s, p, x + BlockSize(c, newSize)), Some(x))
  }

  /** mem_trim cuts a free block off the last block of the heap. */
  ghost predicate CutsLastBlock(c: Config, s: State, x: int, newSize: nat)
    requires Shaped(c, s) && newSize < c.limit
  {
    && !SizeRefused(c, newSize) && c.hdr <= x < c.size && s.heads.next[x - c.hdr] == c.size
    && x + BlockSize(c, newSize) + c.hdr + c.min <= c.size
  }

  /** Where block p ends after Shrink. */
  ghost function ShrunkEnd(c: Config, s: State, p: nat, q: nat): nat
    requires Shaped(c, s) && p in s.starts && p < c.size
  {
    var n := s.heads.next[p];
    if !s.heads.used[n] || q + c.hdr + c.min <= n then q else n
  }

  lemma MoveEnd(blocks: set<nat>, next: seq<nat>, next': seq<nat>, held: set<nat>, used: int, taken: set<nat>, p: nat)
    requires Accounted(blocks, next, held, used, taken) && p in blocks
    requires |next'| == |next| && SameEnds(blocks - {p}, next, next')
    ensures Accounted(blocks, next', held, used + next'[p] - next[p], taken)
  {
    ExtentRemove(blocks, next, p);
    ExtentRemove(blocks, next', p);
    ExtentSame(blocks - {p}, next, next');
  }

  /** s' is s with the end of block p moved to q and nothing else about allocated blocks changed. */
  ghost predicate EndMoved(c: Config, s: State, s': State, p: nat, q: nat)
    requires Sized(c, s.heads) && Sized(c, s'.heads) && p <= c.size
  {
    && BlocksOf(c, s') == BlocksOf(c, s) && s'.heads.next[p] == q
    && SameEnds(BlocksOf(c, s) - {p}, s.heads.next, s'.heads.next)
  }

  lemma MoveDownKeeps(c: Config, s: State, p: nat, q: nat, taken: set<nat>)
    requires Ordered(c, s, taken) && p in s.starts && p < c.size && s.heads.used[p] && p !in taken && Aligned(c, q)
    requires p + c.hdr + c.min <= q < s.heads.next[p] && !s.heads.used[s.heads.next[p]]
    ensures Ordered(c, MoveDown(c, s, p, q), taken) && EndMoved(c, s, MoveDown(c, s, p, q), p, q)
  {
    MoveTiling(c, s.heads, s.starts, p, q);
    MoveOrder(c, s.heads, s.starts, p, q, s.lfree, taken);
  }

  lemma CutOffKeeps(c: Config, s: State, p: nat, q: nat, taken: set<nat>)
    requires Ordered(c, s, taken) && p in s.starts && p < c.size && s.heads.used[p] && Aligned(c, q)
    requires p + c.hdr + c.min <= q && q + c.hdr + c.min <= s.heads.next[p] && s.heads.used[s.heads.next[p]]
    ensures Ordered(c, CutOff(c, s, p, q), taken) && EndMoved(c, s, CutOff(c, s, p, q), p, q)
  {
    SplitTiling(c, s.heads, s.starts, p, q);
    CutOrder(c, s.heads, s.starts, p, q, s.lfree, taken);
  }

  /** mem_trim of a held block: the invariant holds again, exactly that block's end has moved. */
  lemma ShrinkKeeps(c: Config, s: State, p: nat, q: nat, taken: set<nat>)
    requires Inv(c, s, taken) && p in s.held && Aligned(c, q) && p in s.starts && p < c.size
    requires p + c.hdr + c.min <= q < s.heads.next[p]
    ensures var s' := Shrink(c, s, p, q);
            && Inv(c, s', taken) && EndMoved(c, s, s', p, ShrunkEnd(c, s, p, q))
            && s'.held == s.held && s'.freed && s'.illegal == s.illegal && s'.err == s.err
  {
    if !s.heads.used[s.heads.next[p]] {
      MoveDownKeeps(c, s, p, q, taken);
    } else if q + c.hdr + c.min <= s.heads.next[p] {
      CutOffKeeps(c, s, p, q, taken);
    }
    MoveEnd(BlocksOf(c, s), s.heads.next, Shrink(c, s, p, q).heads.next, s.held, s.used, taken, p);
  }

  // ---- mem_malloc

  /** The scan of mem_malloc from ptr on: the first block it would take. */
  ghost function Scan(c: Config, h: Heads, starts: set<nat>, ptr: nat, size: nat): (r: Option<nat>)
    requires ValidConfig(c) && Tiling(c, h, starts) && ptr in starts && 0 < size <= c.size
    decreases c.size - ptr
  {
    if ptr >= c.size - size then None
    else if !h.used[ptr] && h.next[ptr] - (ptr + c.hdr) >= size then Some(ptr)
    else Scan(c, h, starts, h.next[ptr], size)
  }

  /** Nothing below ptr fits. */
  ghost predicate NothingFitsBelow(c: Config, h: Heads, starts: set<nat>, ptr: nat, size: nat)
    requires Sized(c, h)
  {
    forall q: nat {:trigger Fits(c, h, starts, q, size)} :: Fits(c, h, starts, q, size) ==> ptr <= q
  }

  lemma AdvanceScan(c: Config, h: Heads, starts: set<nat>, ptr: nat, size: nat)
    requires ValidConfig(c) && Tiling(c, h, starts) && ptr in starts && ptr < c.size
    requires NothingFitsBelow(c, h, starts, ptr, size) && !Fits(c, h, starts, ptr, size)
    ensures NothingFitsBelow(c, h, starts, h.next[ptr], size)
  {
    forall q: nat {:trigger Fits(c, h, starts, q, size)} | Fits(c, h, starts, q, size) ensures h.next[ptr] <= q {
      assert Between(ptr, q) || q <= ptr;
    }
  }

  /** The scan finds the lowest block that fits, and none exactly when none fits. */
  lemma {:induction false} ScanFinds(c: Config, h: Heads, starts: set<nat>, ptr: nat, size: nat)
    requires ValidConfig(c) && Tiling(c, h, starts) && ptr in starts && 0 < size <= c.size
    requires NothingFitsBelow(c, h, starts, ptr, size)
    ensures var r := Scan(c, h, starts, ptr, size);
            && (r.Some? ==> Fits(c, h, starts, r.value, size) && NothingFitsBelow(c, h, starts, r.value, size))
            && (r.None? ==> forall q: nat {:trigger Fits(c, h, starts, q, size)} :: !Fits(c, h, starts, q, size))
    decreases c.size - ptr
  {
    if ptr >= c.size - size {
      forall q: nat {:trigger Fits(c, h, starts, q, size)} ensures !Fits(c, h, starts, q, size) {
        assert q in starts && q < c.size ==> h.next[q] <= c.size;
      }
    } else if !Fits(c, h, starts, ptr, size) {
      AdvanceScan(c, h, starts, ptr, size);
      ScanFinds(c, h, starts, h.next[ptr], size);
    }
  }

  /** Block p is marked as used and its end cut off, leaving a free block at q. */
  ghost function TakeFront(c: Config, s: State, p: nat, q: nat): State
    requires Shaped(c, s) && p in s.starts && p < c.size && p < q < s.heads.next[p]
  {
    State(Mark(Split(c, s.heads, p, q), p, true), s.starts + {q}, s.lfree, s.freed, s.held, s.used + q - p, s.illegal, s.err)
  }

  ghost function TakeWhole(c: Config, s: State, p: nat): State
    requires Shaped(c, s) && p in s.starts && p < c.size
  {
    s.(heads := Mark(s.heads, p, true), used := s.used + s.heads.next[p] - p)
  }

  /** Block p is taken, cut to size if the rest can hold a block of its own. */
  ghost function Take(c: Config, s: State, p: nat, size: nat): (s': State)
    requires Shaped(c, s) && p in s.starts && p < c.size && size <= s.heads.next[p] - (p + c.hdr)
  {
    if s.heads.next[p] - (p + c.hdr) >= size + c.hdr + c.min then TakeFront(c, s, p, p + c.hdr + size) else TakeWhole(c, s, p)
  }

  /** Where block p ends after Take. */
  ghost function TakenEnd(c: Config, s: State, p: nat, size: nat): nat
    requires Shaped(c, s) && p in s.starts && p < c.size
  {
    var n := s.heads.next[p];
    if n - (p + c.hdr) >= size + c.hdr + c.min then p + c.hdr + size else n
  }

  lemma AddBlock(blocks: set<nat>, next: seq<nat>, next': seq<nat>, held: set<nat>, used: int, p: nat)
    requires Accounted(blocks, next, held, used, {}) && p !in blocks && p < |next|
    requires |next'| == |next| && SameEnds(blocks, next, next')
    ensures Accounted(blocks + {p}, next', held, used + next'[p] - p, {p})
  {
    assert blocks + {p} - {p} == blocks;
    ExtentRemove(blocks + {p}, next', p);
    ExtentSame(blocks, next, next');
  }

  /** s' is s with block p allocated up to `end` and nothing else about allocated blocks changed. */
  ghost predicate BlockAdded(c: Config, s: State, s': State, p: nat, end: nat)
    requires Sized(c, s.heads) && Sized(c, s'.heads) && p <= c.size
  {
    && p !in BlocksOf(c, s) && BlocksOf(c, s') == BlocksOf(c, s) + {p} && s'.heads.next[p] == end
    && SameEnds(BlocksOf(c, s), s.heads.next, s'.heads.next)
  }

  /** Beside the headers only the amount in use has changed. */
  ghost predicate OnlyTaken(s: State, s': State, bytes: int) {
    s'.used == s.used + bytes && s' == s.(heads := s'.heads, starts := s'.starts, used := s'.used)
  }

  lemma TakeFrontKeeps(c: Config, s: State, p: nat, q: nat)
    requires Ordered(c, s, {}) && p in s.starts && p < c.size && !s.heads.used[p] && Aligned(c, q)
    requires p + c.hdr + c.min <= q && q + c.hdr + c.min <= s.heads.next[p]
    ensures Ordered(c, TakeFront(c, s, p, q), {p}) && BlockAdded(c, s, TakeFront(c, s, p, q), p, q)
    ensures OnlyTaken(s, TakeFront(c, s, p, q), q - p)
  {
    SplitTiling(c, s.heads, s.starts, p, q);
    assert BlockAdded(c, s, TakeFront(c, s, p, q), p, q) by { TakeFrontAdds(c, s, p, q); }
    assert Ordered(c, TakeFront(c, s, p, q), {p}) by { TakeFrontOrder(c, s.heads, s.starts, p, q, s.lfree); }
  }

  lemma TakeFrontAdds(c: Config, s: State, p: nat, q: nat)
    requires Shaped(c, s) && p in s.starts && p < c.size && !s.heads.used[p] && q !in s.starts && p < q < s.heads.next[p]
    ensures BlockAdded(c, s, TakeFront(c, s, p, q), p, q)
  {
  }

  lemma TakeFrontOrder(c: Config, h: Heads, starts: set<nat>, p: nat, q: nat, lfree: int)
    requires Sized(c, h) && p in starts && q !in starts && p < c.size && p < q < h.next[p] <= c.size && !h.used[p]
    requires Forward(c, h.next, starts) && NoTwoFree(c, h.next, h.used, starts) && Lowest(c, h.used, starts, lfree, {})
    ensures var h' := Mark(Split(c, h, p, q), p, true);
            NoTwoFree(c, h'.next, h'.used, starts + {q}) && Lowest(c, h'.used, starts + {q}, lfree, {p})
  {
  }

  lemma TakeWholeKeeps(c: Config, s: State, p: nat)
    requires Ordered(c, s, {}) && p in s.starts && p < c.size && !s.heads.used[p]
    ensures Ordered(c, TakeWhole(c, s, p), {p}) && BlockAdded(c, s, TakeWhole(c, s, p), p, s.heads.next[p])
    ensures OnlyTaken(s, TakeWhole(c, s, p), s.heads.next[p] - p)
  {
  }

  /** Taking a block that fits: every allocated block stays as it is, and p joins them. */
  lemma TakeAdds(c: Config, s: State, p: nat, size: nat)
    requires Ordered(c, s, {}) && Fits(c, s.heads, s.starts, p, size) && Aligned(c, size) && c.min <= size
    ensures var s' := Take(c, s, p, size);
            && Ordered(c, s', {p}) && BlockAdded(c, s, s', p, TakenEnd(c, s, p, size))
            && OnlyTaken(s, s', TakenEnd(c, s, p, size) - p)
  {
    hide TakeFront, TakeWhole;
    if s.heads.next[p] - (p + c.hdr) >= size + c.hdr + c.min {
      MultipleSum(c.align, p, c.hdr);
      MultipleSum(c.align, p + c.hdr, size);
      TakeFrontKeeps(c, s, p, p + c.hdr + size);
    } else {
      TakeWholeKeeps(c, s, p);
    }
  }

  /** Taking a block that fits keeps the invariant, with the block still in mem_malloc's hands. */
  lemma TakeKeeps(c: Config, s: State, p: nat, size: nat)
    requires Inv(c, s, {}) && Fits(c, s.heads, s.starts, p, size) && Aligned(c, size) && c.min <= size
    ensures Inv(c, Take(c, s, p, size), {p})
  {
    TakeAdds(c, s, p, size);
    AddBlock(BlocksOf(c, s), s.heads.next, Take(c, s, p, size).heads.next, s.held, s.used, p);
  }

  /** The walk of mem_malloc to the next free block. */
  ghost function NextFree(c: Config, h: Heads, starts: set<nat>, cur: nat): (r: nat)
    requires ValidConfig(c) && Tiling(c, h, starts) && cur in starts
    decreases c.size - cur
  {
    if !(h.used[cur] && cur != c.size) then cur else NextFree(c, h, starts, h.next[cur])
  }

  ghost predicate AllUsedBelow(used: seq<bool>, starts: set<nat>, cur: nat) {
    forall q :: q in starts && q < cur && q < |used| ==> used[q]
  }

  lemma AdvanceFree(c: Config, h: Heads, starts: set<nat>, cur: nat)
    requires ValidConfig(c) && Tiling(c, h, starts) && cur in starts && cur < c.size && h.used[cur]
    requires AllUsedBelow(h.used, starts, cur)
    ensures AllUsedBelow(h.used, starts, h.next[cur])
  {
    forall q | q in starts && q < h.next[cur] ensures h.used[q] {
      assert Between(cur, q) || q <= cur;
    }
  }

  lemma {:induction false} NextFreeLowest(c: Config, h: Heads, starts: set<nat>, cur: nat)
    requires ValidConfig(c) && Tiling(c, h, starts) && cur in starts && AllUsedBelow(h.used, starts, cur)
    ensures Lowest(c, h.used, starts, NextFree(c, h, starts, cur), {})
    decreases c.size - cur
  {
    if h.used[cur] && cur != c.size {
      AdvanceFree(c, h, starts, cur);
      NextFreeLowest(c, h, starts, h.next[cur]);
    }
  }

  /** The block taken is handed to the client, and lfree moves past it if it was the lowest. */
  ghost function Deliver(c: Config, s: State, p: nat): State
    requires Ordered(c, s, {p})
  {
    s.(lfree := if s.lfree == p then NextFree(c, s.heads, s.starts, p) else s.lfree, held := s.held + {p})
  }

  lemma DeliverKeeps(c: Config, s: State, p: nat)
    requires Inv(c, s, {p})
    ensures Inv(c, Deliver(c, s, p), {})
  {
    if s.lfree == p {
      NextFreeLowest(c, s.heads, s.starts, p);
    }
  }

  /** No block of the heap can hold `size` bytes. */
  ghost predicate NothingFits(c: Config, h: Heads, starts: set<nat>, size: nat)
    requires Sized(c, h)
  {
    forall q: nat {:trigger Fits(c, h, starts, q, size)} :: !Fits(c, h, starts, q, size)
  }

  /** The block mem_malloc picks: the scan starts at lfree. */
  ghost function Pick(c: Config, s: State, sizeIn: nat): Option<nat>
    requires Ordered(c, s, {}) && sizeIn < c.limit
  {
    if sizeIn == 0 || SizeRefused(c, sizeIn) then None
    else Scan(c, s.heads, s.starts, s.lfree, BlockSize(c, sizeIn))
  }

  /** Although it starts at lfree, the pick is the lowest block of the heap that fits; there
      is none exactly when the size is out of range or no block of the heap can hold it. */
  lemma PickLowest(c: Config, s: State, sizeIn: nat)
    requires Ordered(c, s, {}) && sizeIn < c.limit
    ensures var pick, size := Pick(c, s, sizeIn), BlockSize(c, sizeIn);
            && (pick.None? <==> sizeIn == 0 || RoundUp(c.align, sizeIn) > c.size || NothingFits(c, s.heads, s.starts, size))
            && (pick.Some? ==>
                  && Fits(c, s.heads, s.starts, pick.value, size) && NothingFitsBelow(c, s.heads, s.starts, pick.value, size)
                  && Aligned(c, size) && c.min <= size && sizeIn <= size)
  {
    SizeRefusedIff(c, sizeIn);
    if sizeIn != 0 && !SizeRefused(c, sizeIn) {
      ScanFinds(c, s.heads, s.starts, s.lfree, BlockSize(c, sizeIn));
    }
  }

  /** mem_malloc when nothing disturbs it. */
  ghost function Malloc(c: Config, s: State, sizeIn: nat): State
    requires Ordered(c, s, {}) && sizeIn < c.limit
  {
    match Pick(c, s, sizeIn)
    case None => if sizeIn == 0 || SizeRefused(c, sizeIn) then s else s.(err := s.err + 1)
    case Some(p) =>
      PickLowest(c, s, sizeIn);
      TakeAdds(c, s, p, BlockSize(c, sizeIn));
      Deliver(c, Take(c, s, p, BlockSize(c, sizeIn)), p)
  }

  /** mem_malloc keeps the invariant; it adds exactly the block picked, with room for
      the bytes asked for, and changes no other allocated block. */
  lemma MallocKeeps(c: Config, s: State, sizeIn: nat)
    requires Inv(c, s, {}) && sizeIn < c.limit
    ensures var pick, s' := Pick(c, s, sizeIn), Malloc(c, s, sizeIn);
            && Inv(c, s', {}) && s'.freed == s.freed && s'.illegal == s.illegal
            && (pick.None? ==> s' == s.(err := s'.err))
            && (pick.Some? ==> MallocAdds(c, s, s', pick.value, sizeIn))
  {
    hide Take;
    var pick, size := Pick(c, s, sizeIn), BlockSize(c, sizeIn);
    if pick.Some? {
      PickLowest(c, s, sizeIn);
      TakeAdds(c, s, pick.value, size);
      TakeKeeps(c, s, pick.value, size);
      DeliverKeeps(c, Take(c, s, pick.value, size), pick.value);
    }
  }

  ghost predicate MallocAdds(c: Config, s: State, s': State, p: nat, sizeIn: nat)
    requires Sized(c, s.heads) && Sized(c, s'.heads)
  {
    && p <= c.size && BlockAdded(c, s, s', p, s'.heads.next[p]) && p + c.hdr + sizeIn <= s'.heads.next[p]
    && s'.held == s.held + {p} && s'.err == s.err
  }
}
