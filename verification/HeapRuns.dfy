/** Every run of mem.c: mem_init followed by any calls of mem_malloc, mem_free and
    mem_trim, with clients writing to their memory in between. */
module HeapRuns {
  import opened Basics
  import opened HeapModel
  import opened HeapOps

  /** Scribble: clients write, so that anything may stand at an offset where no block starts. */
  datatype Op = CallMalloc(size: nat) | CallFree(rmem: Option<int>) | CallTrim(area: int, size: nat) | Scribble(heads: Heads)

  /** What a client may do: free and trim only blocks it holds, or pointers the code rejects itself. */
  ghost predicate Legal(c: Config, s: State, op: Op)
    requires Shaped(c, s)
  {
    match op
    case CallMalloc(size) => size < c.limit
    case CallFree(rmem) => rmem.Some? && Accepts(c, s.heads, rmem.value) ==> rmem.value - c.hdr in s.held
    case CallTrim(rmem, size) =>
      size < c.limit && (!SizeRefused(c, size) && 0 <= rmem < c.size ==> rmem >= c.hdr && rmem - c.hdr in s.held)
    case Scribble(h) => SameHeads(c, s.heads, h, s.starts)
  }

  ghost predicate SameHeads(c: Config, h: Heads, h': Heads, starts: set<nat>)
    requires Sized(c, h)
  {
    && Sized(c, h')
    && (forall p {:trigger h'.next[p]} :: p in starts && p <= c.size ==> h'.next[p] == h.next[p])
    && (forall p {:trigger h'.prev[p]} :: p in starts && p <= c.size ==> h'.prev[p] == h.prev[p])
    && (forall p {:trigger h'.used[p]} :: p in starts && p <= c.size ==> h'.used[p] == h.used[p])
  }

  lemma HeldStarts(c: Config, s: State, taken: set<nat>)
    requires Inv(c, s, taken)
    ensures s.held == BlocksOf(c, s) - taken && forall p :: p in s.held ==> p in s.starts && p < c.size && s.heads.used[p]
  {
  }

  /** What clients do to the heap without mem_malloc; also while another thread is inside it. */
  ghost function Disturb(c: Config, s: State, op: Op, taken: set<nat>): State
    requires Inv(c, s, taken) && !op.CallMalloc? && Legal(c, s, op)
  {
    HeldStarts(c, s, taken);
    match op
    case CallFree(rmem) => Free(c, s, rmem)
    case CallTrim(rmem, size) => Trim(c, s, rmem, size).0
    case Scribble(h) => s.(heads := h)
  }

  ghost function Apply(c: Config, s: State, op: Op): State
    requires Inv(c, s, {}) && Legal(c, s, op)
  {
    if op.CallMalloc? then Malloc(c, s, op.size) else Disturb(c, s, op, {})
  }

  /** The block whose end an operation may move, if any. */
  ghost function Target(c: Config, op: Op): Option<int> {
    match op
    case CallFree(rmem) => if rmem.Some? then Some(rmem.value - c.hdr) else None
    case CallTrim(rmem, _) => Some(rmem - c.hdr)
    case _ => None
  }

  /** Every allocated block the operation does not name is still there, at its full extent. */
  ghost predicate OthersKept(c: Config, s: State, s': State, target: Option<int>, taken: set<nat>)
    requires Sized(c, s.heads) && Sized(c, s'.heads)
  {
    forall p :: p in BlocksOf(c, s) && (target != Some(p) || p in taken) ==>
      p in BlocksOf(c, s') && s'.heads.next[p] == s.heads.next[p]
  }

  /** What mem_free and mem_trim leave alone when they do not set mem_free_count. */
  ghost predicate Quiet(c: Config, s: State, s': State)
    requires Sized(c, s.heads)
  {
    s'.starts == s.starts && s'.lfree == s.lfree && s'.freed == s.freed && SameHeads(c, s.heads, s'.heads, s.starts)
  }

  lemma ScribbleKeeps(c: Config, s: State, h: Heads, taken: set<nat>)
    requires Inv(c, s, taken) && Legal(c, s, Scribble(h))
    ensures var s' := Disturb(c, s, Scribble(h), taken);
            Inv(c, s', taken) && OthersKept(c, s, s', None, taken) && Quiet(c, s, s')
  {
    var s' := s.(heads := h);
    ScribbleLinks(c, s.heads, h, s.starts);
    assert BlocksOf(c, s') == BlocksOf(c, s);
    ExtentSame(BlocksOf(c, s), s.heads.next, h.next);
  }

  lemma ScribbleLinks(c: Config, h: Heads, h': Heads, starts: set<nat>)
    requires ValidConfig(c) && Tiling(c, h, starts) && SameHeads(c, h, h', starts)
    ensures Tiling(c, h', starts)
  {
  }

  lemma FreeKeeps(c: Config, s: State, rmem: Option<int>, taken: set<nat>)
    requires Inv(c, s, taken) && Legal(c, s, CallFree(rmem))
    ensures var s' := Disturb(c, s, CallFree(rmem), taken);
            && Inv(c, s', taken) && OthersKept(c, s, s', Target(c, CallFree(rmem)), taken) && (s'.freed || Quiet(c, s, s'))
  {
    hide Release;
    HeldStarts(c, s, taken);
    if rmem.Some? && Accepts(c, s.heads, rmem.value) {
      ReleaseKeeps(c, s, rmem.value - c.hdr, taken);
    }
  }

  lemma TrimShrinks(c: Config, s: State, p: nat, size: nat, taken: set<nat>)
    requires Inv(c, s, taken) && p in s.held && p in s.starts && p < c.size && size < c.limit && !SizeRefused(c, size)
    requires p + c.hdr + BlockSize(c, size) < s.heads.next[p]
    ensures var s' := Shrink(c, s, p, p + c.hdr + BlockSize(c, size));
            Inv(c, s', taken) && OthersKept(c, s, s', Some(p), taken) && s'.freed
  {
    hide Shrink, Gapless, Backward, NoTwoFreeExcept, Lowest, RoundUp;
    SizeRefusedIff(c, size);
    MultipleSum(c.align, p, c.hdr);
    MultipleSum(c.align, p + c.hdr, BlockSize(c, size));
    ShrinkKeeps(c, s, p, p + c.hdr + BlockSize(c, size), taken);
  }

  lemma TrimKeeps(c: Config, s: State, rmem: int, size: nat, taken: set<nat>)
    requires Inv(c, s, taken) && Legal(c, s, CallTrim(rmem, size))
    ensures var s' := Disturb(c, s, CallTrim(rmem, size), taken);
            && Inv(c, s', taken) && OthersKept(c, s, s', Some(rmem - c.hdr), taken) && (s'.freed || Quiet(c, s, s'))
  {
    hide Shrink, Trim, Forward, Gapless, Backward, NoTwoFreeExcept, Lowest, BlockSize, SizeRefused;
    HeldStarts(c, s, taken);
    TrimIs(c, s, rmem, size);
    if Trims(c, s, rmem, size) {
      TrimShrinks(c, s, rmem - c.hdr, size, taken);
    }
  }

  predicate Trims(c: Config, s: State, rmem: int, size: nat)
    requires ValidConfig(c) && size < c.limit
  {
    && !SizeRefused(c, size) && c.hdr <= rmem < c.size && |s.heads.next| > c.size
    && rmem + BlockSize(c, size) < s.heads.next[rmem - c.hdr]
  }

  lemma TrimIs(c: Config, s: State, rmem: int, size: nat)
    requires Shaped(c, s) && size < c.limit
    requires !SizeRefused(c, size) && 0 <= rmem < c.size ==> rmem >= c.hdr && rmem - c.hdr in s.starts
    ensures Trims(c, s, rmem, size) ==>
              Trim(c, s, rmem, size).0 == Shrink(c, s, rmem - c.hdr, rmem + BlockSize(c, size))
    ensures !Trims(c, s, rmem, size) ==> Trim(c, s, rmem, size).0 == s.(illegal := Trim(c, s, rmem, size).0.illegal)
  {
  }

  /** Exactly block p is gone: from the allocated blocks, from what clients hold, and from `used`; and mem_free_count is set. */
  ghost predicate Freed(c: Config, s: State, s': State, p: nat)
    requires Sized(c, s.heads) && Sized(c, s'.heads) && p <= c.size
  {
    && BlocksOf(c, s') == BlocksOf(c, s) - {p} && SameEnds(BlocksOf(c, s'), s.heads.next, s'.heads.next)
    && s'.held == s.held - {p} && s'.used == s.used - (s.heads.next[p] - p)
    && s'.freed && s'.illegal == s.illegal && s'.err == s.err
  }

  lemma HeldFreed(c: Config, s: State, p: nat, taken: set<nat>)
    requires Inv(c, s, taken) && p in s.held
    ensures Accepts(c, s.heads, p + c.hdr) && p in s.starts && p < c.size
    ensures var s' := Free(c, s, Some(p + c.hdr)); Inv(c, s', taken) && Freed(c, s, s', p)
  {
    hide Release, Free, Gapless, Backward, NoTwoFreeExcept, Lowest;
    HeldStarts(c, s, taken);
    HeldAccepted(c, s, p);
    FreeIs(c, s, p);
    ReleaseKeeps(c, s, p, taken);
    FreedExtent(c, s, Release(c, s, p), taken, p);
  }

  /** mem_free of a block that somebody holds frees it; of a pointer that it rejects, counts it; of NULL, does nothing. */
  lemma FreeFrees(c: Config, s: State, rmem: Option<int>, taken: set<nat>)
    requires Inv(c, s, taken) && Legal(c, s, CallFree(rmem))
    ensures var s' := Disturb(c, s, CallFree(rmem), taken);
            && Sized(c, s'.heads)
            && (rmem.Some? && rmem.value - c.hdr in s.held ==> rmem.value - c.hdr < c.size && Freed(c, s, s', rmem.value - c.hdr))
            && (rmem.Some? && rmem.value - c.hdr !in s.held ==> s' == s.(illegal := s.illegal + 1))
            && (rmem.None? ==> s' == s)
  {
    hide Release, Accepts, Freed, Gapless, Backward, NoTwoFreeExcept, Lowest, Forward;
    HeldStarts(c, s, taken);
    if rmem.Some? && rmem.value - c.hdr in s.held {
      HeldFreed(c, s, rmem.value - c.hdr, taken);
      assert Some(rmem.value - c.hdr + c.hdr) == rmem;
    }
  }

  /** What mem_free does: NULL changes nothing, and a pointer that is rejected only the count of them; a block that somebody holds
      is freed, and the heap is in order. */
  ghost predicate FreeDone(c: Config, s: State, s': State, rmem: Option<int>)
    requires Shaped(c, s)
  {
    && (rmem.None? ==> s' == s)
    && (rmem.Some? && !Accepts(c, s.heads, rmem.value) ==> s' == s.(illegal := s.illegal + 1))
    && (rmem.Some? && rmem.value - c.hdr in s.held && Inv(c, s, {}) ==>
          Inv(c, s', {}) && rmem.value - c.hdr < c.size && Freed(c, s, s', rmem.value - c.hdr))
  }

  lemma FreeIsDone(c: Config, s: State, rmem: Option<int>)
    requires Shaped(c, s) && (rmem.Some? && Accepts(c, s.heads, rmem.value) ==> rmem.value - c.hdr in s.starts)
    ensures FreeDone(c, s, Free(c, s, rmem), rmem)
  {
    hide Release, Accepts, Freed, Inv;
    if rmem.Some? && rmem.value - c.hdr in s.held && Inv(c, s, {}) {
      HeldFreed(c, s, rmem.value - c.hdr, {});
      assert Some(rmem.value - c.hdr + c.hdr) == rmem;
    }
  }

  /** What mem_trim does: nothing for a size that is refused, a count for a pointer outside the heap, and to a block that
      somebody holds what it should. */
  ghost predicate TrimDone(c: Config, s: State, s': State, x: int, size: nat, r: Option<int>)
    requires Shaped(c, s) && size < c.limit
  {
    && (SizeRefused(c, size) ==> s' == s && r == None)
    && (!SizeRefused(c, size) && !(0 <= x < c.size) ==> s' == s.(illegal := s.illegal + 1) && r == Some(x))
    && (Inv(c, s, {}) && x - c.hdr in s.held ==>
          x - c.hdr in s.starts && x - c.hdr < c.size && Inv(c, s', {}) && Trimmed(c, s, s', x - c.hdr, size, r))
  }

  lemma TrimRejects(c: Config, s: State, x: int, size: nat)
    requires Shaped(c, s) && size < c.limit
    requires !SizeRefused(c, size) && 0 <= x < c.size ==> x >= c.hdr && x - c.hdr in s.starts
    ensures SizeRefused(c, size) ==> Trim(c, s, x, size) == (s, None)
    ensures !SizeRefused(c, size) && !(0 <= x < c.size) ==> Trim(c, s, x, size) == (s.(illegal := s.illegal + 1), Some(x))
  {
    hide Shaped, Shrink;
  }

  lemma TrimIsDone(c: Config, s: State, x: int, size: nat)
    requires Shaped(c, s) && size < c.limit
    requires !SizeRefused(c, size) && 0 <= x < c.size ==> x >= c.hdr && x - c.hdr in s.starts
    ensures TrimDone(c, s, Trim(c, s, x, size).0, x, size, Trim(c, s, x, size).1)
  {
    hide Inv, Trimmed, Trim, Shaped;
    TrimRejects(c, s, x, size);
    if Inv(c, s, {}) && x - c.hdr in s.held {
      TrimLegal(c, s, x - c.hdr, size, {});
      TrimTrims(c, s, x - c.hdr, size, {});
      TrimKeeps(c, s, x, size, {});
    }
  }

  lemma FreeIs(c: Config, s: State, p: nat)
    requires Shaped(c, s) && p in s.starts && p < c.size && Accepts(c, s.heads, p + c.hdr)
    ensures Free(c, s, Some(p + c.hdr)) == Release(c, s, p)
  {
    hide Release;
  }

  /** `used` has dropped by the extent of the block. */
  lemma FreedExtent(c: Config, s: State, s': State, taken: set<nat>, p: nat)
    requires Inv(c, s, taken) && Inv(c, s', taken) && p in BlocksOf(c, s) && p !in taken
    requires BlocksOf(c, s') == BlocksOf(c, s) - {p} && SameEnds(BlocksOf(c, s'), s.heads.next, s'.heads.next)
    ensures s'.used == s.used - (s.heads.next[p] - p)
  {
    ExtentRemove(BlocksOf(c, s), s.heads.next, p);
    ExtentSame(BlocksOf(c, s'), s.heads.next, s'.heads.next);
  }

  /** What a client who holds block p gets for trimming it to `size` bytes: the block ends behind them if a free block follows or
      one can be made there, and stays as it is otherwise. */
  ghost function TrimmedEnd(c: Config, s: State, p: nat, size: nat): nat
    requires Shaped(c, s) && p in s.starts && p < c.size && size < c.limit
  {
    var n, q := s.heads.next[p], p + c.hdr + BlockSize(c, size);
    if SizeRefused(c, size) || q >= n then n
    else if !s.heads.used[n] || n - q >= c.hdr + c.min then q
    else n
  }

  /** The end of block p has moved there, and NULL comes back exactly for a size that is refused or bigger than the block. */
  ghost predicate Trimmed(c: Config, s: State, s': State, p: nat, size: nat, r: Option<int>)
    requires Shaped(c, s) && p in s.starts && p < c.size && size < c.limit && Sized(c, s'.heads)
  {
    var end := TrimmedEnd(c, s, p, size);
    && EndMoved(c, s, s', p, end) && s'.held == s.held && s'.used == s.used + end - s.heads.next[p] && s'.illegal == s.illegal && s'.err == s.err
    && r == (if SizeRefused(c, size) || p + c.hdr + BlockSize(c, size) > s.heads.next[p] then None else Some(p + c.hdr))
  }

  ghost predicate TrimmedBy(c: Config, s: State, s': State, p: nat, size: nat)
    requires Shaped(c, s) && p in s.starts && p < c.size && size < c.limit && Sized(c, s'.heads)
  {
    exists r :: Trimmed(c, s, s', p, size, r)
  }

  lemma TrimLegal(c: Config, s: State, p: nat, size: nat, taken: set<nat>)
    requires Inv(c, s, taken) && p in s.held && size < c.limit
    ensures p in s.starts && p < c.size && Legal(c, s, CallTrim(p + c.hdr, size))
  {
    HeldStarts(c, s, taken);
  }

  /** mem_trim of a block that somebody holds. */
  lemma TrimTrims(c: Config, s: State, p: nat, size: nat, taken: set<nat>)
    requires Inv(c, s, taken) && p in s.held && size < c.limit && p in s.starts && p < c.size
    ensures var (s', r) := Trim(c, s, p + c.hdr, size); Sized(c, s'.heads) && Trimmed(c, s, s', p, size, r)
  {
    hide Forward, Gapless, Backward, NoTwoFreeExcept, Lowest, BlockSize, SizeRefused, Shrink;
    HeldStarts(c, s, taken);
    HeldRoom(c, s, p);
    if Trims(c, s, p + c.hdr, size) {
      var q := p + c.hdr + BlockSize(c, size);
      TrimShrinks(c, s, p, size, taken);
      TrimEnds(c, s, p, size, taken);
      TrimmedUsed(c, s, Shrink(c, s, p, q), taken, p);
    }
  }

  lemma HeldRoom(c: Config, s: State, p: nat)
    requires Shaped(c, s) && p in s.starts && p < c.size
    ensures p + c.hdr < c.size && s.heads.next[p] <= c.size
  {
  }

  lemma TrimEnds(c: Config, s: State, p: nat, size: nat, taken: set<nat>)
    requires Inv(c, s, taken) && p in s.held && p in s.starts && p < c.size && size < c.limit && !SizeRefused(c, size)
    requires p + c.hdr + BlockSize(c, size) < s.heads.next[p]
    ensures var q := p + c.hdr + BlockSize(c, size);
            var s' := Shrink(c, s, p, q);
            && p + c.hdr + c.min <= q && Sized(c, s'.heads) && EndMoved(c, s, s', p, TrimmedEnd(c, s, p, size))
            && s'.held == s.held && s'.illegal == s.illegal && s'.err == s.err
  {
    hide Shrink, Gapless, Backward, NoTwoFreeExcept, Lowest, RoundUp;
    SizeRefusedIff(c, size);
    MultipleSum(c.align, p, c.hdr);
    MultipleSum(c.align, p + c.hdr, BlockSize(c, size));
    ShrinkKeeps(c, s, p, p + c.hdr + BlockSize(c, size), taken);
  }

  lemma TrimmedUsed(c: Config, s: State, s': State, taken: set<nat>, p: nat)
    requires Inv(c, s, taken) && Inv(c, s', taken) && p in BlocksOf(c, s) && BlocksOf(c, s') == BlocksOf(c, s)
    requires SameEnds(BlocksOf(c, s) - {p}, s.heads.next, s'.heads.next)
    ensures s'.used == s.used + s'.heads.next[p] - s.heads.next[p]
  {
    ExtentRemove(BlocksOf(c, s), s.heads.next, p);
    ExtentRemove(BlocksOf(c, s), s'.heads.next, p);
    ExtentSame(BlocksOf(c, s) - {p}, s.heads.next, s'.heads.next);
  }

  /** mem_free and mem_trim, whenever they run, keep the invariant and every block they do not
      name; and unless they set mem_free_count they leave all headers and lfree alone. */
  lemma DisturbKeeps(c: Config, s: State, op: Op, taken: set<nat>)
    requires Inv(c, s, taken) && !op.CallMalloc? && Legal(c, s, op)
    ensures var s' := Disturb(c, s, op, taken);
            && Inv(c, s', taken) && OthersKept(c, s, s', Target(c, op), taken) && (s'.freed || Quiet(c, s, s'))
  {
    hide Disturb, Inv, OthersKept, Quiet;
    match op
    case CallFree(rmem) => FreeKeeps(c, s, rmem, taken);
    case CallTrim(rmem, size) => TrimKeeps(c, s, rmem, size, taken);
    case Scribble(h) => ScribbleKeeps(c, s, h, taken);
  }

  /** One call keeps the invariant and every block it does not name. */
  lemma ApplyKeeps(c: Config, s: State, op: Op)
    requires Inv(c, s, {}) && Legal(c, s, op)
    ensures Inv(c, Apply(c, s, op), {}) && OthersKept(c, s, Apply(c, s, op), Target(c, op), {})
  {
    if op.CallMalloc? {
      MallocKeeps(c, s, op.size);
    } else {
      DisturbKeeps(c, s, op, {});
    }
  }

  /** The operations are defined on well-formed heaps only; RunInv shows that no run leaves them. */
  ghost predicate Step(c: Config, s: State, op: Op, s': State) {
    Inv(c, s, {}) ==> Legal(c, s, op) && s' == Apply(c, s, op)
  }

  /** states is a run: mem_init, then the operations one after another. */
  ghost predicate IsRun(c: Config, states: seq<State>, ops: seq<Op>)
    requires ValidConfig(c)
  {
    && |states| == |ops| + 1
    && (exists h :: Sized(c, h) && states[0] == Initial(c, h))
    && forall i {:trigger ops[i]} :: 0 <= i < |ops| ==> Step(c, states[i], ops[i], states[i + 1])
  }

  /** Every state of every run satisfies the heap invariant. */
  lemma {:induction false} RunInv(c: Config, states: seq<State>, ops: seq<Op>, i: nat)
    requires ValidConfig(c) && IsRun(c, states, ops) && i <= |ops|
    ensures Inv(c, states[i], {})
  {
    if i == 0 {
      var h :| Sized(c, h) && states[0] == Initial(c, h);
      InitialInv(c, h);
    } else {
      RunInv(c, states, ops, i - 1);
      assert Step(c, states[i - 1], ops[i - 1], states[i]);
      ApplyKeeps(c, states[i - 1], ops[i - 1]);
    }
  }

  /** A block keeps its place and extent for as long as nobody frees or trims it. */
  lemma {:induction false} RunKeepsBlock(c: Config, states: seq<State>, ops: seq<Op>, i: nat, j: nat, p: nat)
    requires ValidConfig(c) && IsRun(c, states, ops) && i <= j <= |ops|
    requires Sized(c, states[i].heads) && p in BlocksOf(c, states[i])
    requires forall k :: i <= k < j ==> Target(c, ops[k]) != Some(p)
    ensures Sized(c, states[j].heads) && p in BlocksOf(c, states[j]) && states[j].heads.next[p] == states[i].heads.next[p]
  {
    if i < j {
      RunKeepsBlock(c, states, ops, i, j - 1, p);
      RunInv(c, states, ops, j - 1);
      assert Step(c, states[j - 1], ops[j - 1], states[j]);
      ApplyKeeps(c, states[j - 1], ops[j - 1]);
    }
  }

  /** Over every run: a free of a block somebody holds frees exactly it, a rejected pointer is counted, NULL changes nothing. */
  lemma RunFrees(c: Config, states: seq<State>, ops: seq<Op>, i: nat)
    requires ValidConfig(c) && IsRun(c, states, ops) && i < |ops| && ops[i].CallFree?
    ensures var s, s', rmem := states[i], states[i + 1], ops[i].rmem;
            && Sized(c, s.heads) && Sized(c, s'.heads)
            && (rmem.Some? && rmem.value - c.hdr in s.held ==> rmem.value - c.hdr < c.size && Freed(c, s, s', rmem.value - c.hdr))
            && (rmem.Some? && rmem.value - c.hdr !in s.held ==> s' == s.(illegal := s.illegal + 1))
            && (rmem.None? ==> s' == s)
  {
    hide Freed, Disturb;
    RunInv(c, states, ops, i);
    assert Step(c, states[i], ops[i], states[i + 1]);
    FreeFrees(c, states[i], ops[i].rmem, {});
  }

  /** Over every run: trimming a block somebody holds moves its end to where it should be. */
  lemma RunTrims(c: Config, states: seq<State>, ops: seq<Op>, i: nat, p: nat)
    requires ValidConfig(c) && IsRun(c, states, ops) && i < |ops| && ops[i].CallTrim? && ops[i].area == p + c.hdr && p in states[i].held
    ensures var s, s', size := states[i], states[i + 1], ops[i].size;
            && Shaped(c, s) && p in s.starts && p < c.size && size < c.limit && Sized(c, s'.heads)
            && TrimmedBy(c, s, s', p, size)
  {
    hide Trimmed, Trim;
    RunInv(c, states, ops, i);
    assert Step(c, states[i], ops[i], states[i + 1]);
    TrimLegal(c, states[i], p, ops[i].size, {});
    TrimTrims(c, states[i], p, ops[i].size, {});
  }

  // ---- what the invariant means for the bytes of the heap

  /** The block that byte x belongs to. */
  ghost predicate Holds(c: Config, s: State, p: nat, x: nat)
    requires Sized(c, s.heads)
  {
    p in s.starts && p < c.size && p <= x < s.heads.next[p]
  }

  /** Blocks cover the heap ... */
  lemma {:induction false} EveryByteHeld(c: Config, s: State, from: nat, x: nat) returns (p: nat)
    requires Shaped(c, s) && from in s.starts && from <= x < c.size
    ensures Holds(c, s, p, x)
    decreases c.size - from
  {
    p := from;
    if s.heads.next[from] <= x {
      p := EveryByteHeld(c, s, s.heads.next[from], x);
    }
  }

  /** ... without overlapping, so that user areas are disjoint. */
  lemma OneHolder(c: Config, s: State, p: nat, q: nat, x: nat)
    requires Shaped(c, s) && Holds(c, s, p, x) && Holds(c, s, q, x)
    ensures p == q
  {
    assert Between(p, q) || Between(q, p) || p == q;
  }

  /** Every byte of [a, b) lies in a free block. */
  ghost predicate Gap(c: Config, s: State, a: nat, b: nat)
    requires Sized(c, s.heads)
  {
    a < b <= c.size && forall p: nat, x: nat {:trigger Holds(c, s, p, x)} :: a <= x < b && Holds(c, s, p, x) ==> !s.heads.used[p]
  }

  /** Coalescing is complete: a stretch of free bytes is never cut in two, so it
      lies inside one block, and mem_malloc can hand out all of it but a header. */
  lemma GapInOneBlock(c: Config, s: State, a: nat, b: nat) returns (p: nat)
    requires Ordered(c, s, {}) && Gap(c, s, a, b)
    ensures Holds(c, s, p, a) && !s.heads.used[p] && b <= s.heads.next[p]
  {
    p := EveryByteHeld(c, s, 0, a);
    var n := s.heads.next[p];
    if n < b {
      assert s.heads.used[n] && s.heads.next[n] > n;
      assert Holds(c, s, n, n);
      assert false;
    }
  }

  /** When mem_malloc returns NULL for a size within range, no stretch of free bytes
      would have had room for a header and the rounded size. */
  lemma NullMeansFull(c: Config, s: State, sizeIn: nat, a: nat, b: nat)
    requires Inv(c, s, {}) && 0 < sizeIn < c.limit && RoundUp(c.align, sizeIn) <= c.size
    requires Pick(c, s, sizeIn).None? && Gap(c, s, a, b)
    ensures b - a < c.hdr + BlockSize(c, sizeIn)
  {
    PickLowest(c, s, sizeIn);
    var p := GapInOneBlock(c, s, a, b);
    assert !Fits(c, s.heads, s.starts, p, BlockSize(c, sizeIn));
  }

  /** Freeing a block twice in a row is rejected, whether the block still starts there or was combined with
      the one in front of it. */
  lemma DoubleFreeRejected(c: Config, s: State, p: nat)
    requires Inv(c, s, {}) && p in s.held
    ensures p in s.starts && p < c.size
    ensures Inv(c, Release(c, s, p), {}) && !Accepts(c, Release(c, s, p).heads, p + c.hdr)
  {
    ReleaseKeeps(c, s, p, {});
  }

  /** At any time, a pointer to a block that is not allocated is rejected. */
  lemma FreeBlockRejected(c: Config, s: State, p: nat)
    requires Inv(c, s, {}) && p in s.starts && p < c.size && p !in s.held
    ensures !Accepts(c, s.heads, p + c.hdr)
  {
  }

  lemma {:induction false} MultipleOf(a: nat, k: nat)
    requires a > 0
    ensures Multiple(a, a * k)
  {
    if k > 0 {
      MultipleOf(a, k - 1);
      assert a * k - a == a * (k - 1);
    }
  }

  /** The heap of this firmware: 30 KiB, aligned to 4 bytes, 8 bytes per header, and a 16-bit mem_size_t. */
  lemma FirmwareConfig()
    ensures ValidConfig(Config(4, 8, 12, 30 * 1024, 0x10000))
  {
    MultipleOf(4, 2);
    MultipleOf(4, 3);
    MultipleOf(4, 7680);
    MultipleOf(4, 0x4000);
  }

  lemma {:induction false} MultipleDifference(a: nat, x: nat, y: nat)
    requires a > 0 && Multiple(a, x) && Multiple(a, y) && y <= x
    ensures Multiple(a, x - y)
  {
    if y != 0 { MultipleDifference(a, x - a, y - a); }
  }

  /** Aligned sizes are not rounded. */
  lemma RoundsToItself(c: Config, x: nat)
    requires ValidConfig(c) && Aligned(c, x) && c.min <= x <= c.size
    ensures RoundUp(c.align, x) == x && BlockSize(c, x) == x && !SizeRefused(c, x)
  {
    if RoundUp(c.align, x) != x { MultipleGap(c.align, x, RoundUp(c.align, x)); }
  }

  /** The assertion of mem_trim that the trimmed block is not the last one fails in
      every heap with room for two blocks: allocate all of it, then trim to one byte. */
  lemma LastBlockCanBeTrimmed(c: Config, h: Heads)
    requires ValidConfig(c) && Sized(c, h) && 2 * (c.hdr + c.min) <= c.size
    ensures Inv(c, Initial(c, h), {})
    ensures var s := Malloc(c, Initial(c, h), c.size - c.hdr);
            && Inv(c, s, {}) && Legal(c, s, CallTrim(c.hdr, 1)) && CutsLastBlock(c, s, c.hdr, 1)
  {
    hide Malloc, Pick, NoTwoFreeExcept, Backward, Gapless, BlockSize, SizeRefused;
    var s0 := Initial(c, h);
    InitialInv(c, h);
    MultipleDifference(c.align, c.size, c.hdr);
    RoundsToItself(c, c.size - c.hdr);
    OneByteBlock(c);
    PickLowest(c, s0, c.size - c.hdr);
    assert Fits(c, s0.heads, s0.starts, 0, c.size - c.hdr);
    MallocKeeps(c, s0, c.size - c.hdr);
  }

  /** A block for one byte is as small as blocks get. */
  lemma OneByteBlock(c: Config)
    requires ValidConfig(c)
    ensures BlockSize(c, 1) == c.min && !SizeRefused(c, 1)
  {
    MultipleGap(c.align, 0, c.min);
    assert RoundUp(c.align, 1) == c.align;
  }
}
