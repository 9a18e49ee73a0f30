/**
 mem_malloc with LWIP_ALLOW_MEM_FREE_FROM_OTHER_CONTEXT: it opens its lock at every step
 of both of its loops, and there mem_free and mem_trim may run any number of times.
 One step of the machine is what happens between two openings of the lock.
*/
module HeapInterrupts {
  import opened Basics
  import opened HeapModel
  import opened HeapOps
  import opened HeapRuns

  /** Where mem_malloc stands. AtLoop and Walk: in front of a loop test, lock closed. Open and
      WalkOpen: lock open. Adjust: at the label mem_malloc_adjust_lfree. `seen` is the heap
      at which the present scan started, kept for the proof. */
  datatype Pc =
    | Outside
    | AtLoop(ptr: nat, seen: State)
    | Open(ptr: nat, seen: State)
    | Adjust(p: nat)
    | Walk(p: nat, cur: nat)
    | WalkOpen(p: nat, cur: nat)

  /** sizeIn and result: argument and return value of the latest call. */
  datatype Machine = Machine(heap: State, pc: Pc, sizeIn: nat, result: Option<int>)

  datatype Event = Begin(sizeIn: nat) | Go | Other(op: Op)

  /** The block taken by the call in progress. */
  function Taken(pc: Pc): set<nat> {
    match pc
    case Adjust(p) => {p}
    case Walk(p, _) => {p}
    case WalkOpen(p, _) => {p}
    case _ => {}
  }

  /** The lock is open, or nobody holds it. */
  predicate Unlocked(pc: Pc) {
    pc.Outside? || pc.Open? || pc.WalkOpen?
  }

  ghost predicate Enabled(c: Config, m: Machine, e: Event)
    requires Shaped(c, m.heap)
  {
    match e
    case Begin(sizeIn) => m.pc.Outside? && sizeIn < c.limit
    case Go => !m.pc.Outside?
    case Other(op) => Unlocked(m.pc) && !op.CallMalloc? && Legal(c, m.heap, op)
  }

  ghost function Next(c: Config, m: Machine, e: Event): Machine
    requires Good(c, m) && Enabled(c, m, e)
  {
    match e
    case Begin(sizeIn) => Enter(c, m, sizeIn)
    case Other(op) => m.(heap := Disturb(c, m.heap, op, Taken(m.pc)))
    case Go =>
      match m.pc
      case AtLoop(ptr, seen) => LoopTest(c, m, ptr, seen)
      case Open(ptr, seen) => LoopBody(c, m, ptr, seen)
      case Adjust(p) => if p == m.heap.lfree then m.(pc := Walk(p, p)) else Return(c, m, p, m.heap.lfree)
      case Walk(p, cur) => WalkTest(c, m, p, cur)
      case WalkOpen(p, cur) => if m.heap.freed then m.(pc := Adjust(p)) else m.(pc := Walk(p, m.heap.heads.next[cur]))
  }

  ghost function Enter(c: Config, m: Machine, sizeIn: nat): Machine
    requires ValidConfig(c) && sizeIn < c.limit && 0 <= m.heap.lfree
  {
    if sizeIn == 0 || SizeRefused(c, sizeIn) then m.(sizeIn := sizeIn, result := None)
    else m.(sizeIn := sizeIn, pc := AtLoop(m.heap.lfree, m.heap))
  }

  ghost function LoopTest(c: Config, m: Machine, ptr: nat, seen: State): Machine
    requires ValidConfig(c) && m.sizeIn < c.limit
  {
    if ptr < c.size - BlockSize(c, m.sizeIn) then m.(heap := m.heap.(freed := false), pc := Open(ptr, seen))
    else m.(heap := m.heap.(err := m.heap.err + 1), pc := Outside, result := None)
  }

  ghost function LoopBody(c: Config, m: Machine, ptr: nat, seen: State): Machine
    requires Shaped(c, m.heap) && m.sizeIn < c.limit && 0 <= m.heap.lfree
    requires !m.heap.freed ==> ptr in m.heap.starts && ptr < c.size
  {
    var size := BlockSize(c, m.sizeIn);
    if m.heap.freed then m.(pc := AtLoop(m.heap.lfree, m.heap))
    else if Fits(c, m.heap.heads, m.heap.starts, ptr, size) then m.(heap := Take(c, m.heap, ptr, size), pc := Adjust(ptr))
    else m.(pc := AtLoop(m.heap.heads.next[ptr], seen))
  }

  ghost function WalkTest(c: Config, m: Machine, p: nat, cur: nat): Machine
    requires Sized(c, m.heap.heads) && cur <= c.size
  {
    if m.heap.heads.used[cur] && cur != c.size then m.(heap := m.heap.(freed := false), pc := WalkOpen(p, cur))
    else Return(c, m, p, cur)
  }

  /** lfree is settled, and p goes to the caller. */
  ghost function Return(c: Config, m: Machine, p: nat, lfree: int): Machine {
    m.(heap := m.heap.(lfree := lfree, held := m.heap.held + {p}), pc := Outside, result := Some(p + c.hdr))
  }

  // ---- the invariant

  /** The scan has been undisturbed since `seen` and has passed by nothing that fits. */
  ghost predicate Scanned(c: Config, s: State, seen: State, ptr: nat, size: nat)
    requires Sized(c, s.heads)
  {
    && ptr in s.starts && NothingFitsBelow(c, s.heads, s.starts, ptr, size)
    && Sized(c, seen.heads) && seen.starts == s.starts && SameHeads(c, seen.heads, s.heads, s.starts)
  }

  ghost predicate Walked(c: Config, s: State, p: nat, cur: nat)
    requires Sized(c, s.heads)
  {
    s.lfree == p && cur in s.starts && AllUsedBelow(s.heads.used, s.starts, cur)
  }

  /** The block taken has room for what was asked for. */
  ghost predicate Roomy(c: Config, m: Machine, p: nat) {
    p < |m.heap.heads.next| && p + c.hdr + m.sizeIn <= m.heap.heads.next[p]
  }

  /** A size that mem_malloc searches for. */
  ghost predicate Sought(c: Config, sizeIn: nat)
    requires ValidConfig(c)
  {
    0 < sizeIn < c.limit && !SizeRefused(c, sizeIn)
  }

  ghost predicate Good(c: Config, m: Machine) {
    && Inv(c, m.heap, Taken(m.pc))
    && (!m.pc.Outside? ==> Sought(c, m.sizeIn))
    && match m.pc
       case Outside => true
       case AtLoop(ptr, seen) => Scanned(c, m.heap, seen, ptr, BlockSize(c, m.sizeIn))
       case Open(ptr, seen) => m.heap.freed || (ptr < c.size && Scanned(c, m.heap, seen, ptr, BlockSize(c, m.sizeIn)))
       case Adjust(p) => Roomy(c, m, p)
       case Walk(p, cur) => Roomy(c, m, p) && Walked(c, m.heap, p, cur)
       case WalkOpen(p, cur) => Roomy(c, m, p) && (m.heap.freed || (cur < c.size && m.heap.heads.used[cur] && Walked(c, m.heap, p, cur)))
  }

  // ---- what steps keep

  /** Nothing fits below lfree, so a scan may start there. */
  lemma StartScan(c: Config, s: State, size: nat)
    requires Ordered(c, s, {})
    ensures s.lfree >= 0 && Scanned(c, s, s, s.lfree, size)
  {
  }

  lemma EnterKeeps(c: Config, m: Machine, sizeIn: nat)
    requires Good(c, m) && m.pc.Outside? && sizeIn < c.limit
    ensures Good(c, Enter(c, m, sizeIn))
  {
  }

  /** Nothing fits once the scan has passed the end: NULL is right for the heap as it is now. */
  lemma ScanExhausted(c: Config, s: State, ptr: nat, size: nat)
    requires Shaped(c, s) && ptr in s.starts && ptr >= c.size - size
    requires NothingFitsBelow(c, s.heads, s.starts, ptr, size)
    ensures NothingFits(c, s.heads, s.starts, size)
  {
  }

  lemma LoopTestKeeps(c: Config, m: Machine)
    requires Good(c, m) && m.pc.AtLoop?
    ensures Good(c, LoopTest(c, m, m.pc.ptr, m.pc.seen))
  {
    hide Forward, Gapless, Backward, NoTwoFreeExcept, Lowest, NothingFitsBelow, SameHeads;
  }

  lemma LoopBodyKeeps(c: Config, m: Machine)
    requires Good(c, m) && m.pc.Open?
    ensures m.heap.lfree >= 0 && Good(c, LoopBody(c, m, m.pc.ptr, m.pc.seen))
  {
    hide Take, Gapless, Backward, NoTwoFreeExcept, Multiple;
    var size := BlockSize(c, m.sizeIn);
    if m.heap.freed {
      StartScan(c, m.heap, size);
    } else if Fits(c, m.heap.heads, m.heap.starts, m.pc.ptr, size) {
      SizeRefusedIff(c, m.sizeIn);
      TakeAdds(c, m.heap, m.pc.ptr, size);
      TakeKeeps(c, m.heap, m.pc.ptr, size);
    } else {
      AdvanceScan(c, m.heap.heads, m.heap.starts, m.pc.ptr, size);
    }
  }

  /** Handing out the block ends the call with lfree the lowest free block, or ram_end. */
  lemma ReturnKeeps(c: Config, m: Machine, p: nat, lfree: int)
    requires Good(c, m) && Taken(m.pc) == {p} && Lowest(c, m.heap.heads.used, m.heap.starts, lfree, {})
    ensures Good(c, Return(c, m, p, lfree)) && p in Return(c, m, p, lfree).heap.held
  {
  }

  lemma AdjustKeeps(c: Config, m: Machine)
    requires Good(c, m) && m.pc.Adjust?
    ensures Good(c, Next(c, m, Go))
  {
    hide Forward, Gapless, Backward, NoTwoFreeExcept, Multiple;
    if m.pc.p != m.heap.lfree {
      ReturnKeeps(c, m, m.pc.p, m.heap.lfree);
    }
  }

  lemma WalkTestKeeps(c: Config, m: Machine)
    requires Good(c, m) && m.pc.Walk?
    ensures Good(c, WalkTest(c, m, m.pc.p, m.pc.cur))
  {
    hide Forward, Gapless, Backward, NoTwoFreeExcept, Multiple;
    if !m.heap.heads.used[m.pc.cur] || m.pc.cur == c.size {
      ReturnKeeps(c, m, m.pc.p, m.pc.cur);
    }
  }

  lemma WalkStepKeeps(c: Config, m: Machine)
    requires Good(c, m) && m.pc.WalkOpen?
    ensures Good(c, Next(c, m, Go))
  {
    hide Backward, NoTwoFreeExcept, Multiple;
    if !m.heap.freed {
      AdvanceFree(c, m.heap.heads, m.heap.starts, m.pc.cur);
    }
  }

  /** An interruption that does not set mem_free_count leaves the progress of both loops valid. */
  lemma QuietScan(c: Config, s: State, s': State, seen: State, ptr: nat, size: nat)
    requires Sized(c, s.heads) && Quiet(c, s, s') && Scanned(c, s, seen, ptr, size) && StartsInHeap(c, s)
    ensures Scanned(c, s', seen, ptr, size)
  {
    forall q: nat {:trigger Fits(c, s'.heads, s'.starts, q, size)} | Fits(c, s'.heads, s'.starts, q, size) ensures ptr <= q {
      assert Fits(c, s.heads, s.starts, q, size);
    }
  }

  ghost predicate StartsInHeap(c: Config, s: State) {
    forall p :: p in s.starts ==> p <= c.size
  }

  lemma OtherKeeps(c: Config, m: Machine, op: Op)
    requires Good(c, m) && Enabled(c, m, Other(op))
    ensures Good(c, Next(c, m, Other(op))) && OthersKept(c, m.heap, Next(c, m, Other(op)).heap, Target(c, op), Taken(m.pc))
  {
    hide Disturb, Forward, Gapless, Backward, NoTwoFreeExcept, Lowest, Multiple, Legal, NothingFitsBelow;
    var s, s' := m.heap, Disturb(c, m.heap, op, Taken(m.pc));
    DisturbKeeps(c, s, op, Taken(m.pc));
    match m.pc
    case Outside =>
    case Open(ptr, seen) =>
      if !s'.freed {
        QuietScan(c, s, s', seen, ptr, BlockSize(c, m.sizeIn));
      }
    case WalkOpen(p, cur) =>
      assert p in BlocksOf(c, s);
  }

  /** Every step, of mem_malloc or of an interruption, keeps the invariant. */
  lemma NextKeeps(c: Config, m: Machine, e: Event)
    requires Good(c, m) && Enabled(c, m, e)
    ensures Good(c, Next(c, m, e))
  {
    match e
    case Begin(sizeIn) => EnterKeeps(c, m, sizeIn);
    case Other(op) => OtherKeeps(c, m, op);
    case Go =>
      match m.pc {
        case AtLoop(_, _) => LoopTestKeeps(c, m);
        case Open(_, _) => LoopBodyKeeps(c, m);
        case Adjust(_) => AdjustKeeps(c, m);
        case Walk(_, _) => WalkTestKeeps(c, m);
        case WalkOpen(_, _) => WalkStepKeeps(c, m);
      }
  }

  // ---- runs

  /** Steps are defined in good states only; RunGood shows that no run leaves them. */
  ghost predicate Moves(c: Config, m: Machine, e: Event, m': Machine) {
    Good(c, m) ==> Enabled(c, m, e) && m' == Next(c, m, e)
  }

  /** mem_init, then any interleaving of calls of mem_malloc with frees and trims. */
  ghost predicate IsTrace(c: Config, ms: seq<Machine>, es: seq<Event>)
    requires ValidConfig(c)
  {
    && |ms| == |es| + 1 && ms[0].pc.Outside?
    && (exists h :: Sized(c, h) && ms[0].heap == Initial(c, h))
    && forall i {:trigger es[i]} :: 0 <= i < |es| ==> Moves(c, ms[i], es[i], ms[i + 1])
  }

  /** In every interleaving the heap stays well formed at every step. */
  lemma {:induction false} TraceGood(c: Config, ms: seq<Machine>, es: seq<Event>, i: nat)
    requires ValidConfig(c) && IsTrace(c, ms, es) && i <= |es|
    ensures Good(c, ms[i])
  {
    hide Next;
    if i == 0 {
      var h :| Sized(c, h) && ms[0].heap == Initial(c, h);
      InitialInv(c, h);
    } else {
      TraceGood(c, ms, es, i - 1);
      assert Moves(c, ms[i - 1], es[i - 1], ms[i]);
      NextKeeps(c, ms[i - 1], es[i - 1]);
    }
  }

  /** The scan in progress at step k started at step j, at lfree, and found the same blocks ever since. */
  ghost predicate ScanSince(c: Config, ms: seq<Machine>, j: nat, k: nat, seen: State)
    requires j <= k < |ms|
  {
    && ms[j].pc.AtLoop? && ms[j].heap == seen && ms[j].pc.ptr == seen.lfree && Sized(c, seen.heads)
    && forall i {:trigger ms[i]} :: j <= i <= k ==>
         ms[i].heap.starts == seen.starts && SameHeads(c, seen.heads, ms[i].heap.heads, seen.starts)
  }

  /** Unless an interruption has just been noted, the scan under way has been undisturbed. */
  lemma {:induction false} ScanStarted(c: Config, ms: seq<Machine>, es: seq<Event>, k: nat) returns (j: nat)
    requires ValidConfig(c) && IsTrace(c, ms, es) && k <= |es|
    requires ms[k].pc.AtLoop? || (ms[k].pc.Open? && !ms[k].heap.freed)
    ensures j <= k && ScanSince(c, ms, j, k, ms[k].pc.seen)
  {
    hide Good, SameHeads, Next;
    TraceGood(c, ms, es, k);
    ScanSeen(c, ms[k]);
    if k == 0 || (ms[k].pc.AtLoop? && ms[k].pc.seen == ms[k].heap && ms[k].pc.ptr == ms[k].heap.lfree) {
      j := k;
    } else {
      TraceGood(c, ms, es, k - 1);
      assert Moves(c, ms[k - 1], es[k - 1], ms[k]);
      StepInScan(c, ms[k - 1], es[k - 1], ms[k]);
      j := ScanStarted(c, ms, es, k - 1);
    }
  }

  lemma ScanSeen(c: Config, m: Machine)
    requires Good(c, m) && (m.pc.AtLoop? || (m.pc.Open? && !m.heap.freed))
    ensures var seen := m.pc.seen;
            Sized(c, seen.heads) && m.heap.starts == seen.starts && SameHeads(c, seen.heads, m.heap.heads, seen.starts)
  {
  }

  lemma StepInScan(c: Config, m: Machine, e: Event, m': Machine)
    requires Good(c, m) && Moves(c, m, e, m') && Good(c, m')
    requires m'.pc.AtLoop? || (m'.pc.Open? && !m'.heap.freed)
    requires !(m'.pc.AtLoop? && m'.pc.seen == m'.heap && m'.pc.ptr == m'.heap.lfree)
    ensures m.pc.AtLoop? || (m.pc.Open? && !m.heap.freed)
    ensures m'.pc.seen == m.pc.seen
  {
    hide Inv, Take, SameHeads, NothingFitsBelow, Legal;
    if e.Other? {
      DisturbKeeps(c, m.heap, e.op, Taken(m.pc));
    }
  }

  lemma SameNothingFits(c: Config, seen: State, s: State, s': State, size: nat)
    requires Sized(c, seen.heads) && seen.starts == s.starts == s'.starts && StartsInHeap(c, seen)
    requires SameHeads(c, seen.heads, s.heads, seen.starts) && SameHeads(c, seen.heads, s'.heads, seen.starts)
    requires NothingFits(c, s.heads, s.starts, size)
    ensures NothingFits(c, s'.heads, s'.starts, size)
  {
    forall q: nat {:trigger Fits(c, s'.heads, s'.starts, q, size)} ensures !Fits(c, s'.heads, s'.starts, q, size) {
      assert !Fits(c, s.heads, s.starts, q, size);
    }
  }

  /** mem_malloc gives up only after a scan that started at lfree, that no free or trim
      disturbed, and during which, at every moment, no block of the heap could have been taken. */
  lemma NullJustified(c: Config, ms: seq<Machine>, es: seq<Event>, k: nat) returns (j: nat)
    requires ValidConfig(c) && IsTrace(c, ms, es) && k < |es|
    requires ms[k].pc.AtLoop? && es[k].Go? && ms[k + 1].pc.Outside?
    ensures ms[k + 1].result == None && ms[k].sizeIn < c.limit
    ensures j <= k && ScanSince(c, ms, j, k, ms[j].heap)
    ensures forall i {:trigger ms[i]} :: j <= i <= k ==>
              Sized(c, ms[i].heap.heads) && NothingFits(c, ms[i].heap.heads, ms[i].heap.starts, BlockSize(c, ms[k].sizeIn))
  {
    hide Forward, Gapless, Backward, NoTwoFreeExcept, Lowest, Multiple, Extent, NothingFits, NothingFitsBelow, SameHeads;
    TraceGood(c, ms, es, k);
    assert Moves(c, ms[k], es[k], ms[k + 1]);
    var m, size := ms[k], BlockSize(c, ms[k].sizeIn);
    ScanExhausted(c, m.heap, m.pc.ptr, size);
    j := ScanStarted(c, ms, es, k);
    forall i {:trigger ms[i]} | j <= i <= k
      ensures Sized(c, ms[i].heap.heads) && NothingFits(c, ms[i].heap.heads, ms[i].heap.starts, size)
    {
      TraceGood(c, ms, es, i);
      SameNothingFits(c, ms[j].heap, m.heap, ms[i].heap, size);
    }
  }

  /** The block taken is, at the moment it is taken, free, big enough, and the lowest such block. */
  lemma TakenIsLowestFit(c: Config, ms: seq<Machine>, es: seq<Event>, k: nat)
    requires ValidConfig(c) && IsTrace(c, ms, es) && k < |es|
    requires ms[k].pc.Open? && es[k].Go? && ms[k + 1].pc.Adjust?
    ensures ms[k].sizeIn < c.limit
    ensures var s, p, size := ms[k].heap, ms[k + 1].pc.p, BlockSize(c, ms[k].sizeIn);
            && Sized(c, s.heads) && Fits(c, s.heads, s.starts, p, size) && NothingFitsBelow(c, s.heads, s.starts, p, size)
            && ms[k].sizeIn <= RoundUp(c.align, ms[k].sizeIn) <= size
  {
    hide Forward, Gapless, Backward, NoTwoFreeExcept, Lowest, Multiple, Take;
    TraceGood(c, ms, es, k);
    assert Moves(c, ms[k], es[k], ms[k + 1]);
    SizeRefusedIff(c, ms[k].sizeIn);
  }

  /** When mem_malloc returns a block, its caller holds it with room for all bytes asked
      for, and lfree is the lowest free block, or ram_end when no block is free. */
  lemma ReturnedBlock(c: Config, ms: seq<Machine>, es: seq<Event>, k: nat)
    requires ValidConfig(c) && IsTrace(c, ms, es) && k < |es|
    requires Taken(ms[k].pc) != {} && es[k].Go? && ms[k + 1].pc.Outside?
    ensures var m, s := ms[k + 1], ms[k + 1].heap;
            && Sized(c, s.heads) && m.result.Some? && m.result.value - c.hdr in s.held
            && (exists p: nat :: p + c.hdr == m.result.value && Roomy(c, m, p))
            && Lowest(c, s.heads.used, s.starts, s.lfree, {})
  {
    hide Forward, Gapless, Backward, NoTwoFreeExcept, Multiple;
    TraceGood(c, ms, es, k);
    TraceGood(c, ms, es, k + 1);
    var p :| p in Taken(ms[k].pc);
    assert Moves(c, ms[k], es[k], ms[k + 1]);
    assert Roomy(c, ms[k + 1], p);
  }

  /** mem_malloc returns NULL at once exactly for size 0 and for sizes whose true rounding exceeds the heap; otherwise it
      begins to scan at lfree. */
  lemma NullAtOnceIff(c: Config, ms: seq<Machine>, es: seq<Event>, k: nat)
    requires ValidConfig(c) && IsTrace(c, ms, es) && k < |es| && es[k].Begin?
    ensures ms[k + 1].sizeIn == es[k].sizeIn && ms[k + 1].heap == ms[k].heap
    ensures es[k].sizeIn == 0 || RoundUp(c.align, es[k].sizeIn) > c.size ==> ms[k + 1].pc.Outside? && ms[k + 1].result == None
    ensures es[k].sizeIn > 0 && RoundUp(c.align, es[k].sizeIn) <= c.size ==> ms[k + 1].pc.AtLoop? && ms[k + 1].pc.ptr == ms[k].heap.lfree
  {
    hide Forward, Gapless, Backward, NoTwoFreeExcept, Lowest, RoundUp;
    TraceGood(c, ms, es, k);
    assert Moves(c, ms[k], es[k], ms[k + 1]);
    SizeRefusedIff(c, es[k].sizeIn);
  }

  /** Whatever is interleaved, a free of a block somebody holds frees exactly it, and a trim moves exactly its end. */
  lemma OtherDoes(c: Config, ms: seq<Machine>, es: seq<Event>, k: nat)
    requires ValidConfig(c) && IsTrace(c, ms, es) && k < |es| && es[k].Other?
    ensures var s, s', op := ms[k].heap, ms[k + 1].heap, es[k].op;
            && ms[k + 1] == ms[k].(heap := s') && Shaped(c, s) && Sized(c, s'.heads)
            && (op.CallFree? && op.rmem.Some? && op.rmem.value - c.hdr in s.held ==>
                  op.rmem.value - c.hdr < c.size && Freed(c, s, s', op.rmem.value - c.hdr))
            && (op.CallTrim? && op.area - c.hdr in s.held ==>
                  op.area - c.hdr in s.starts && op.area - c.hdr < c.size && op.size < c.limit && TrimmedBy(c, s, s', op.area - c.hdr, op.size))
  {
    hide Forward, Gapless, Backward, NoTwoFreeExcept, Lowest, Trimmed, Trim, Free, Freed;
    TraceGood(c, ms, es, k);
    TraceGood(c, ms, es, k + 1);
    assert Moves(c, ms[k], es[k], ms[k + 1]);
    var s, op := ms[k].heap, es[k].op;
    if op.CallFree? { FreeFrees(c, s, op.rmem, Taken(ms[k].pc)); }
    if op.CallTrim? && op.area - c.hdr in s.held {
      TrimLegal(c, s, op.area - c.hdr, op.size, Taken(ms[k].pc));
      TrimTrims(c, s, op.area - c.hdr, op.size, Taken(ms[k].pc));
    }
  }

  ghost function Named(c: Config, e: Event): Option<int> {
    if e.Other? then Target(c, e.op) else None
  }

  /** No step touches an allocated block, except the one a free or trim was called with. */
  lemma NextKeepsBlocks(c: Config, m: Machine, e: Event)
    requires Good(c, m) && Enabled(c, m, e)
    ensures Good(c, Next(c, m, e)) && OthersKept(c, m.heap, Next(c, m, e).heap, Named(c, e), Taken(m.pc))
  {
    hide Forward, Gapless, Backward, NoTwoFreeExcept, Lowest, Multiple, Take, NothingFitsBelow, Disturb, SameHeads;
    NextKeeps(c, m, e);
    if e.Other? {
      OtherKeeps(c, m, e.op);
    } else if e.Go? && m.pc.Open? && !m.heap.freed && Fits(c, m.heap.heads, m.heap.starts, m.pc.ptr, BlockSize(c, m.sizeIn)) {
      var size := BlockSize(c, m.sizeIn);
      SizeRefusedIff(c, m.sizeIn);
      TakeAdds(c, m.heap, m.pc.ptr, size);
    }
  }

  /** A block keeps its place and extent, whatever is interleaved, until somebody frees or trims it. */
  lemma {:induction false} TraceKeepsBlock(c: Config, ms: seq<Machine>, es: seq<Event>, i: nat, j: nat, p: nat)
    requires ValidConfig(c) && IsTrace(c, ms, es) && i <= j <= |es|
    requires Sized(c, ms[i].heap.heads) && p in BlocksOf(c, ms[i].heap)
    requires forall k {:trigger es[k]} :: i <= k < j ==> Named(c, es[k]) != Some(p)
    ensures Sized(c, ms[j].heap.heads) && p in BlocksOf(c, ms[j].heap) && ms[j].heap.heads.next[p] == ms[i].heap.heads.next[p]
  {
    hide Next;
    if i < j {
      TraceKeepsBlock(c, ms, es, i, j - 1, p);
      TraceGood(c, ms, es, j - 1);
      assert Moves(c, ms[j - 1], es[j - 1], ms[j]);
      NextKeepsBlocks(c, ms[j - 1], es[j - 1]);
    }
  }

  // ---- progress

  /** How many steps mem_malloc still needs when nothing restarts it. */
  function Rank(c: Config, pc: Pc): int {
    match pc
    case AtLoop(ptr, _) => 2 * (c.size - ptr) + 2 * c.size + 5
    case Open(ptr, _) => 2 * (c.size - ptr) + 2 * c.size + 4
    case Adjust(_) => 2 * c.size + 2
    case Walk(_, cur) => 2 * (c.size - cur) + 1
    case WalkOpen(_, cur) => 2 * (c.size - cur)
    case Outside => 0
  }

  /** Unless a free or a trim has set mem_free_count, every step brings mem_malloc closer to its end. */
  lemma Progress(c: Config, m: Machine)
    requires Good(c, m) && Enabled(c, m, Go) && !(Unlocked(m.pc) && m.heap.freed)
    ensures 0 <= Rank(c, Next(c, m, Go).pc) < Rank(c, m.pc) <= 4 * c.size + 5
  {
    hide Backward, Gapless, NoTwoFreeExcept, Multiple, Take, NothingFitsBelow, SameHeads;
  }
}
