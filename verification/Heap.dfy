/** The heap allocator of mem.c as it works: block headers updated in place. */
module HeapAllocator {
  import opened Basics
  import opened HeapModel
  import opened HeapOps
  import opened HeapRuns

  class Heap {
    const cfg: Config
    /** The fields of struct mem at every byte offset of the heap, ram_end last. */
    const next: array<nat>
    const prev: array<nat>
    const used: array<bool>
    var lfree: int
    /** mem_free_count: set by every free or trim that went through. */
    var freed: bool
    /** lwip_stats.mem */
    var statUsed: int
    var statIllegal: nat
    var statErr: nat
    /** Where blocks start, and which of them clients hold. */
    ghost var starts: set<nat>
    ghost var held: set<nat>

    ghost predicate Ready() {
      ValidConfig(cfg) && next != prev && next.Length == prev.Length == used.Length == cfg.size + 1
    }

    ghost function Headers(): Heads
      reads this, next, prev, used
    {
      Heads(next[..], prev[..], used[..])
    }

    ghost function Now(): State
      reads this, next, prev, used
    {
      State(Headers(), starts, lfree, freed, held, statUsed, statIllegal, statErr)
    }

    /** mem_init */
    constructor (c: Config)
      requires ValidConfig(c)
      ensures cfg == c && Ready() && fresh(next) && fresh(prev) && fresh(used)
      ensures exists h :: Sized(c, h) && Now() == Initial(c, h)
    {
      cfg, next, prev, used := c, new nat[c.size + 1], new nat[c.size + 1], new bool[c.size + 1];
      lfree, freed, statUsed, statIllegal, statErr := 0, false, 0, 0, 0;
      starts, held := {0, c.size}, {};
      new;
      ghost var h := Headers();
      next[0], prev[0], used[0] := c.size, 0, false;
      used[c.size], next[c.size], prev[c.size] := true, c.size, c.size;
      assert Now() == Initial(c, h);
    }

    /** Combine block p with the block behind it. */
    method JoinNext(p: nat)
      requires Ready() && Shaped(cfg, Now()) && p in starts && p < cfg.size && next[p] < cfg.size
      modifies this`lfree, this`starts, next, prev
      ensures Now() == Absorb(cfg, old(Now()), p)
    {
      ghost var was := Now();
      var n := next[p];
      lfree := if lfree == n then p else lfree;
      next[p] := next[n];
      if next[n] != cfg.size {
        prev[next[n]] := p;
      }
      starts := starts - {n};
      assert Headers() == Join(cfg, was.heads, p);
    }

    /** plug_holes */
    method PlugHoles(p: nat)
      requires Ready() && Shaped(cfg, Now()) && p in starts && p < cfg.size
      modifies this`lfree, this`starts, next, prev
      ensures Now() == HeapOps.PlugHoles(cfg, old(Now()), p)
    {
      hide Absorb;
      var n := next[p];
      if p != n && !used[n] && n != cfg.size {
        JoinNext(p);
      }
      assert Now() == PlugForward(cfg, old(Now()), p);
      var o := prev[p];
      if o != p && !used[o] {
        JoinNext(o);
      }
    }

    /** The checks of mem_free, in its order. */
    method Checked(x: int) returns (ok: bool)
      requires Ready()
      ensures ok == Accepts(cfg, Headers(), x)
    {
      if x < 0 || !Aligned(cfg, x) {
        return false;
      }
      if x < cfg.hdr || x + cfg.min > cfg.size {
        return false;
      }
      var p := x - cfg.hdr;
      if !used[p] {
        return false;
      }
      if next[p] > cfg.size || prev[p] > cfg.size {
        return false;
      }
      ok := (prev[p] == p || next[prev[p]] == p) && (next[p] == cfg.size || prev[next[p]] == p);
    }

    /** mem_free */
    method MemFree(rmem: Option<int>)
      requires Ready() && Shaped(cfg, Now())
      requires rmem.Some? && Accepts(cfg, Headers(), rmem.value) ==> rmem.value - cfg.hdr in starts
      modifies this, next, prev, used
      ensures Now() == Free(cfg, old(Now()), rmem)
      ensures FreeDone(cfg, old(Now()), Now(), rmem)
    {
      FreeIsDone(cfg, Now(), rmem);
      hide FreeDone, Release, Accepts, Gapless, Backward, Forward;
      if rmem.None? {
        return;
      }
      var ok := Checked(rmem.value);
      if !ok {
        statIllegal := statIllegal + 1;
        return;
      }
      AcceptedInside(cfg, Headers(), rmem.value);
      ReleaseBlock(rmem.value - cfg.hdr);
    }

    /** The part of mem_free behind its checks. */
    method ReleaseBlock(p: nat)
      requires Ready() && Shaped(cfg, Now()) && p in starts && p < cfg.size
      modifies this, next, prev, used
      ensures Now() == Release(cfg, old(Now()), p)
    {
      hide HeapOps.PlugHoles;
      used[p] := false;
      if p < lfree {
        lfree := p;
      }
      statUsed := statUsed - (next[p] - p);
      held := held - {p};
      assert Now() == MarkedFree(cfg, old(Now()), p);
      PlugHoles(p);
      freed := true;
    }

    /** Cut a free block off the end of p, at q, in front of block n. */
    method LinkNew(p: nat, q: nat, n: nat)
      requires Ready() && p < q < n <= cfg.size
      modifies next, prev, used
      ensures Headers() == Split(cfg, old(Headers()).(next := old(next[..])[p := n]), p, q)
    {
      used[q] := false;
      next[q] := n;
      prev[q] := p;
      next[p] := q;
      if next[q] != cfg.size {
        prev[next[q]] := q;
      }
    }

    /** mem_trim. `sound`: both "invalid next ptr" assertions hold. */
    method MemTrim(x: int, newSize: nat) returns (r: Option<int>, sound: bool)
      requires Ready() && Shaped(cfg, Now()) && newSize < cfg.limit
      requires !SizeRefused(cfg, newSize) && 0 <= x < cfg.size ==> x >= cfg.hdr && x - cfg.hdr in starts
      modifies this, next, prev, used
      ensures (Now(), r) == Trim(cfg, old(Now()), x, newSize)
      ensures sound <==> !CutsLastBlock(cfg, old(Now()), x, newSize)
      ensures TrimDone(cfg, old(Now()), Now(), x, newSize, r)
    {
      TrimIsDone(cfg, Now(), x, newSize);
      BlockSizeMin(cfg, newSize);
      hide Shrink, Multiple, RoundUp, TrimDone, Gapless, Backward, BlockSize, SizeRefused;
      sound := true;
      if SizeRefused(cfg, newSize) {
        return None, true;
      }
      if x < 0 || x >= cfg.size {
        statIllegal := statIllegal + 1;
        return Some(x), true;
      }
      var newsize, p := BlockSize(cfg, newSize), x - cfg.hdr;
      var n := next[p];
      var size := n - p - cfg.hdr;
      if newsize > size {
        return None, true;
      }
      r := Some(x);
      if newsize == size {
        return;
      }
      sound := ShrinkBlock(p, p + cfg.hdr + newsize);
    }

    /** The part of mem_trim behind its checks. */
    method ShrinkBlock(p: nat, q: nat) returns (sound: bool)
      requires Ready() && Shaped(cfg, Now()) && p in starts && p < cfg.size && p + cfg.hdr + cfg.min <= q < next[p]
      modifies this, next, prev, used
      ensures Now() == Shrink(cfg, old(Now()), p, q)
      ensures sound <==> !(old(next[p]) == cfg.size && q + cfg.hdr + cfg.min <= cfg.size)
    {
      hide Split, Join, Multiple;
      sound := true;
      var n := next[p];
      if !used[n] {
        sound := n != cfg.size;
        TrimMoves(p, q);
        assert Now() == MoveDown(cfg, old(Now()), p, q).(freed := freed);
      } else if q + cfg.hdr + cfg.min <= n {
        sound := n != cfg.size;
        TrimCuts(p, q);
        assert Now() == CutOff(cfg, old(Now()), p, q).(freed := freed);
      }
      freed := true;
    }

    /** The branch of mem_trim that moves a free block behind p down to q. */
    method TrimMoves(p: nat, q: nat)
      requires Ready() && Shaped(cfg, Now()) && p in starts && p < cfg.size && p + cfg.hdr <= q < next[p] && !used[next[p]]
      modifies this`lfree, this`statUsed, this`starts, next, prev, used
      ensures Now() == MoveDown(cfg, old(Now()), p, q).(freed := freed)
    {
      ghost var was := Now();
      var n := next[p];
      assert n < next[n] <= cfg.size;
      lfree := if lfree == n then q else lfree;
      LinkNew(p, q, next[n]);
      statUsed := statUsed - (n - q);
      starts := starts - {n} + {q};
      assert Headers() == Split(cfg, Join(cfg, was.heads, p), p, q);
    }

    /** The branch of mem_trim that cuts a free block off p at q. */
    method TrimCuts(p: nat, q: nat)
      requires Ready() && Shaped(cfg, Now()) && p in starts && p < cfg.size && p + cfg.hdr <= q < next[p]
      modifies this`lfree, this`statUsed, this`starts, next, prev, used
      ensures Now() == CutOff(cfg, old(Now()), p, q).(freed := freed)
    {
      ghost var was := Now();
      var n := next[p];
      if q < lfree {
        lfree := q;
      }
      LinkNew(p, q, n);
      statUsed := statUsed - (n - q);
      starts := starts + {q};
      assert was.heads.next[p := n] == was.heads.next;
    }

    /** mem_malloc */
    method MemMalloc(sizeIn: nat) returns (r: Option<int>)
      requires Ready() && Ordered(cfg, Now(), {}) && sizeIn < cfg.limit
      modifies this, next, prev, used
      ensures r == match Pick(cfg, old(Now()), sizeIn) case None => None case Some(p) => Some(p + cfg.hdr)
      ensures Now() == Malloc(cfg, old(Now()), sizeIn)
    {
      hide Take, Deliver, Multiple, RoundUp;
      if sizeIn == 0 || SizeRefused(cfg, sizeIn) {
        return None;
      }
      var size := BlockSize(cfg, sizeIn);
      var pick := FindBlock(size);
      if pick.None? {
        statErr := statErr + 1;
        return None;
      }
      PickLowest(cfg, Now(), sizeIn);
      TakeAdds(cfg, Now(), pick.value, size);
      TakeBlock(pick.value, size);
      DeliverBlock(pick.value);
      r := Some(pick.value + cfg.hdr);
    }

    /** The scan of mem_malloc for a free block that is big enough. */
    method FindBlock(size: nat) returns (r: Option<nat>)
      requires Ready() && Shaped(cfg, Now()) && 0 < size <= cfg.size && lfree in starts
      ensures r == Scan(cfg, Headers(), starts, lfree, size)
    {
      var ptr: nat := lfree;
      while ptr < cfg.size - size
        invariant ptr in starts && Scan(cfg, Headers(), starts, lfree, size) == Scan(cfg, Headers(), starts, ptr, size)
        decreases cfg.size - ptr
      {
        if !used[ptr] && next[ptr] - (ptr + cfg.hdr) >= size {
          return Some(ptr);
        }
        ptr := next[ptr];
      }
      r := None;
    }

    /** Mark p as used, splitting it if the rest can hold a block. */
    method TakeBlock(p: nat, size: nat)
      requires Ready() && Shaped(cfg, Now()) && p in starts && p < cfg.size && size <= next[p] - (p + cfg.hdr)
      modifies this`statUsed, this`starts, next, prev, used
      ensures Now() == Take(cfg, old(Now()), p, size)
    {
      hide Split, TakeFront;
      if next[p] - (p + cfg.hdr) >= size + cfg.hdr + cfg.min {
        SplitBlock(p, p + cfg.hdr + size);
      } else {
        used[p] := true;
        statUsed := statUsed + next[p] - p;
      }
    }

    /** Mark p as used up to q and leave the rest free. */
    method SplitBlock(p: nat, q: nat)
      requires Ready() && Shaped(cfg, Now()) && p in starts && p + cfg.hdr <= q < next[p]
      requires p < cfg.size
      modifies this`statUsed, this`starts, next, prev, used
      ensures Now() == TakeFront(cfg, old(Now()), p, q)
    {
      ghost var was := Now();
      assert was.heads.next[p := next[p]] == was.heads.next;
      LinkNew(p, q, next[p]);
      used[p] := true;
      statUsed := statUsed + q - p;
      starts := starts + {q};
      assert used[..] == Mark(Split(cfg, was.heads, p, q), p, true).used;
    }

    /** Move lfree to the next free block if p was the lowest, and hand p out. */
    method DeliverBlock(p: nat)
      requires Ready() && Ordered(cfg, Now(), {p})
      modifies this`lfree, this`held
      ensures Now() == Deliver(cfg, old(Now()), p)
    {
      if p == lfree {
        var cur: nat := lfree;
        while used[cur] && cur != cfg.size
          invariant cur in starts && NextFree(cfg, Headers(), starts, p) == NextFree(cfg, Headers(), starts, cur)
          decreases cfg.size - cur
        {
          cur := next[cur];
        }
        lfree := cur;
      }
      held := held + {p};
    }
  }
}
