/** The remaining steps that move pooled slots: refilling, installing, pushing, detaching and
    splicing back. */
module ThreadSlotSteps {
  import opened Machine
  import opened BlockTags
  import opened FreeLists
  import opened HeapModel
  import opened Chains
  import opened MemoryPool
  import opened SlotSystem
  import opened Threads
  import opened ThreadInvariant
  import opened ThreadProof
  import opened ThreadSlotProof
  import TC = ThreadCache

  // ---- Moving free slots between two chains ------------------------------------------------------

  /** Only the chains p and q, of t or of a pool, and slot headers change; nothing becomes live
      or stops being live. */
  ghost predicate Shifts(cfg: Config, s: Sys, s': Sys, t: nat, p: Place, q: Place) {
    && t in s.threads && t in s'.threads
    && s' == Put(s.(sl := s'.sl, words := s'.words), t, s'.threads[t])
    && s'.sl.live == s.sl.live && s'.sl.carved == s.sl.carved
    && (p.InPool? || p.t == t) && (q.InPool? || q.t == t)
    && (forall r | r != p && r != q :: At(s'.sl, r) == At(s.sl, r))
    && OnlyHeaders(s, s'.words) && PlacesOk(cfg.addr, s'.sl, s'.words, s'.os.mapped)
  }

  /** t keeps its pointers and what it holds locked. */
  ghost predicate KeepsRegs(cfg: Config, s: Sys, th: Thread, th': Thread) {
    && RegsOk(s, th') && Holds(cfg, th') == Holds(cfg, th)
    && Regs(th') == Regs(th) && RegsDistinct(th')
  }

  lemma ShiftOf(cfg: Config, s: Sys, s': Sys, t: nat, p: Place, q: Place)
    requires Shifts(cfg, s, s', t, p, q) && KeepsRegs(cfg, s, s.threads[t], s'.threads[t])
    ensures SlotStepOf(cfg, s, s', t) && LiveMoves(s, s', {}, {}) && Exchanged(s, s', t, {}, {})
  {
    OwnPlacesOnly(s, s', t, p, q);
  }

  lemma ShiftRegs(cfg: Config, s: Sys, s': Sys, t: nat, p: Place, q: Place)
    requires MemoryOk(cfg, s) && Ready(s, t) && Shifts(cfg, s, s', t, p, q)
    requires KeepsRegs(cfg, s, s.threads[t], s'.threads[t])
    ensures RegsOk(s', s'.threads[t])
  {
    var th' := s'.threads[t];
    forall x | x in Regs(th') ensures Kept(s, s', x) {
      SlotKept(cfg, s, s', x);
    }
    RegsKept(s, s', th');
  }

  lemma ShiftStep(cfg: Config, s: Sys, s': Sys, t: nat, p: Place, q: Place)
    requires Inv(cfg, s) && Shifts(cfg, s, s', t, p, q)
    requires KeepsRegs(cfg, s, s.threads[t], s'.threads[t]) && CachesOk(s', t, s'.threads[t])
    ensures Inv(cfg, s') && Quiet(s, s', t)
  {
    IsReady(cfg, s, t);
    ShiftRegs(cfg, s, s', t, p, q);
    ShiftOf(cfg, s, s', t, p, q);
    SlotStep(cfg, s, s', t, {}, {});
  }

  /** The first slots of a place are slots. */
  lemma PlaceSlots(cfg: Config, s: Sys, p: Place)
    requires MemoryOk(cfg, s)
    ensures forall x | x in At(s.sl, p) :: IsSlot(s.sl, p.i, x) && IsAnySlot(s.sl, x) && x in s.words
  {
    assert PlaceOk(s.sl, s.words, p);
    forall x | x in At(s.sl, p) ensures IsSlot(s.sl, p.i, x) && IsAnySlot(s.sl, x) && x in s.words {
      SlotWord(s.sl, s.words, s.os.mapped, p.i, x);
    }
  }

  lemma RefillTakeShifts(cfg: Config, s: Sys, t: nat, s': Sys)
    requires MemoryOk(cfg, s) && RefillTake(s, t, s')
    ensures Shifts(cfg, s, s', t, InPool(s.threads[t].i), InFlight(t, s.threads[t].i))
  {
    var p, q := InPool(s.threads[t].i), InFlight(t, s.threads[t].i);
    TakeKeeps(cfg.addr, s.sl, s.words, s.os.mapped, p, q);
    PlaceSlots(cfg, s, p);
    PlaceSlots(cfg, s, q);
    assert At(s.sl, q) != [] ==> Last(At(s.sl, q)) in At(s.sl, q);
    assert s'.threads == s.threads[t := s.threads[t]];
  }

  lemma RefillTakeCaches(s: Sys, t: nat, s': Sys)
    requires t in s.threads && CachesOk(s, t, s.threads[t]) && RefillTake(s, t, s')
    ensures CachesOk(s', t, s'.threads[t])
  {
    forall j ensures CacheOk(s', t, s'.threads[t], j) {
      assert CacheOk(s, t, s.threads[t], j);
    }
  }

  lemma RefillTakeKeeps(cfg: Config, s: Sys, t: nat, s': Sys)
    requires Inv(cfg, s) && RefillTake(s, t, s')
    ensures Inv(cfg, s') && Quiet(s, s', t)
  {
    IsReady(cfg, s, t);
    RefillTakeShifts(cfg, s, t, s');
    RefillTakeCaches(s, t, s');
    ShiftStep(cfg, s, s', t, InPool(s.threads[t].i), InFlight(t, s.threads[t].i));
  }

  /** Leaving the refill loop, full or not. */
  lemma RefillDone(cfg: Config, s: Sys, t: nat, th: Thread)
    requires RegsOk(s, th) && CachesOk(s, t, th) && RegsDistinct(th) && th.at.Refilling?
    ensures Steady(cfg, s, t, th, th.(at := Leave(PoolLock(cfg, th.i), Installing)))
  {
    var th' := th.(at := Leave(PoolLock(cfg, th.i), Installing));
    forall j ensures CacheOk(s, t, th', j) {
      assert CacheOk(s, t, th, j);
    }
  }

  lemma RefillFullKeeps(cfg: Config, s: Sys, t: nat, s': Sys)
    requires Inv(cfg, s) && RefillFull(cfg, s, t, s')
    ensures Inv(cfg, s') && Quiet(s, s', t)
  {
    IsReady(cfg, s, t);
    RefillDone(cfg, s, t, s.threads[t]);
    SteadyStep(cfg, s, s', t);
  }

  lemma PoolRefused(cfg: Config, s: Sys, t: nat, th: Thread)
    requires RegsOk(s, th) && CachesOk(s, t, th) && RegsDistinct(th) && th.at.PoolAlloc?
    ensures Steady(cfg, s, t, th, th.(at := Leave(PoolLock(cfg, th.i), Returning)))
  {
    PlainCaches(s, t, th, th.(at := Leave(PoolLock(cfg, th.i), Returning)));
  }

  lemma ExpandRefusedKeeps(cfg: Config, s: Sys, t: nat, s': Sys)
    requires Inv(cfg, s) && ExpandRefused(cfg, s, t, s')
    ensures Inv(cfg, s') && Quiet(s, s', t)
  {
    IsReady(cfg, s, t);
    var th := s.threads[t];
    AskGrants(s.os, Total(th.i) * SLOTS_PER_ARENA);
    if th.at.PoolAlloc? {
      PoolRefused(cfg, s, t, th);
    } else {
      RefillDone(cfg, s, t, th);
    }
    SteadyStep(cfg, s, s', t);
  }

  lemma InstallRegs(cfg: Config, s: Sys, t: nat, th: Thread)
    requires RegsOk(s, th) && CachesOk(s, t, th) && RegsDistinct(th) && th.at.Installing?
    ensures KeepsRegs(cfg, s, th, th.(at := Calling))
    ensures At(s.sl, InFlight(t, th.i)) == [] ==> Steady(cfg, s, t, th, th.(at := Returning))
  {
    var th' := th.(at := Returning);
    if At(s.sl, InFlight(t, th.i)) == [] {
      forall j ensures CacheOk(s, t, th', j) {
        assert CacheOk(s, t, th, j);
      }
    }
  }

  lemma InstallShifts(cfg: Config, s: Sys, t: nat, s': Sys)
    requires MemoryOk(cfg, s) && Ready(s, t) && Install(s, t, s') && At(s.sl, InFlight(t, s.threads[t].i)) != []
    ensures Shifts(cfg, s, s', t, InCache(t, s.threads[t].i), InFlight(t, s.threads[t].i))
    ensures CachesOk(s', t, s'.threads[t])
  {
    var th := s.threads[t];
    var p, q := InCache(t, th.i), InFlight(t, th.i);
    assert CacheOk(s, t, th, th.i);
    InstallKeeps(cfg.addr, s.sl, s.words, s.os.mapped, q, p);
    forall j ensures CacheOk(s', t, s'.threads[t], j) {
      assert CacheOk(s, t, th, j);
    }
  }

  lemma InstallStepKeeps(cfg: Config, s: Sys, t: nat, s': Sys)
    requires Inv(cfg, s) && Install(s, t, s')
    ensures Inv(cfg, s') && Quiet(s, s', t)
  {
    IsReady(cfg, s, t);
    var th := s.threads[t];
    InstallRegs(cfg, s, t, th);
    if At(s.sl, InFlight(t, th.i)) == [] {
      SteadyStep(cfg, s, s', t);
    } else {
      InstallShifts(cfg, s, t, s');
      ShiftStep(cfg, s, s', t, InCache(t, th.i), InFlight(t, th.i));
    }
  }

  // ---- Flushing ----------------------------------------------------------------------------------

  lemma DetachThread(cfg: Config, s: Sys, t: nat, th: Thread)
    requires RegsOk(s, th) && RegsDistinct(th) && th.at.Detaching?
    ensures KeepsRegs(cfg, s, th, th.(at := FlushWait))
  {
  }

  lemma DetachShifts(cfg: Config, s: Sys, t: nat, s': Sys)
    requires MemoryOk(cfg, s) && Ready(s, t) && Detach(s, t, s')
    ensures Shifts(cfg, s, s', t, InCache(t, s.threads[t].i), InFlight(t, s.threads[t].i))
  {
    var th := s.threads[t];
    var p, q := InCache(t, th.i), InFlight(t, th.i);
    assert CacheOk(s, t, th, th.i);
    assert At(s.sl, q) == [] && p != q;
    DetachKeeps(cfg.addr, s.sl, s.words, s.os.mapped, p, q, TC.BATCH);
    PlaceSlots(cfg, s, p);
    var last := At(s.sl, p)[TC.BATCH - 1];
    assert last in At(s.sl, p) && s'.words == s.words[last := 0];
    HeaderWrite(s, p.i, last, 0);
  }

  lemma DetachCaches(s: Sys, t: nat, s': Sys)
    requires t in s.threads && CachesOk(s, t, s.threads[t]) && Detach(s, t, s')
    ensures CachesOk(s', t, s'.threads[t])
  {
    assert CacheOk(s, t, s.threads[t], s.threads[t].i);
    forall j ensures CacheOk(s', t, s'.threads[t], j) {
      assert CacheOk(s, t, s.threads[t], j);
    }
  }

  lemma DetachStepKeeps(cfg: Config, s: Sys, t: nat, s': Sys)
    requires Inv(cfg, s) && Detach(s, t, s')
    ensures Inv(cfg, s') && Quiet(s, s', t)
  {
    IsReady(cfg, s, t);
    DetachThread(cfg, s, t, s.threads[t]);
    DetachShifts(cfg, s, t, s');
    DetachCaches(s, t, s');
    ShiftStep(cfg, s, s', t, InCache(t, s.threads[t].i), InFlight(t, s.threads[t].i));
  }

  lemma SpliceThread(cfg: Config, s: Sys, t: nat, th: Thread)
    requires RegsOk(s, th) && RegsDistinct(th) && th.at.Flushing?
    ensures KeepsRegs(cfg, s, th, th.(at := Leave(PoolLock(cfg, th.i), Freed)))
  {
  }

  lemma SpliceShifts(cfg: Config, s: Sys, t: nat, s': Sys)
    requires MemoryOk(cfg, s) && Ready(s, t) && SpliceBack(cfg, s, t, s')
    ensures Shifts(cfg, s, s', t, InPool(s.threads[t].i), InFlight(t, s.threads[t].i))
  {
    var th := s.threads[t];
    var p, q := InPool(th.i), InFlight(t, th.i);
    SpliceKeeps(cfg.addr, s.sl, s.words, s.os.mapped, q, p);
    PlaceSlots(cfg, s, q);
    assert Last(At(s.sl, q)) in At(s.sl, q);
  }

  lemma SpliceCaches(cfg: Config, s: Sys, t: nat, s': Sys)
    requires t in s.threads && CachesOk(s, t, s.threads[t]) && SpliceBack(cfg, s, t, s')
    ensures CachesOk(s', t, s'.threads[t])
  {
    assert CacheOk(s, t, s.threads[t], s.threads[t].i);
    forall j ensures CacheOk(s', t, s'.threads[t], j) {
      assert CacheOk(s, t, s.threads[t], j);
    }
  }

  lemma SpliceBackKeeps(cfg: Config, s: Sys, t: nat, s': Sys)
    requires Inv(cfg, s) && SpliceBack(cfg, s, t, s')
    ensures Inv(cfg, s') && Quiet(s, s', t)
  {
    IsReady(cfg, s, t);
    SpliceThread(cfg, s, t, s.threads[t]);
    SpliceShifts(cfg, s, t, s');
    SpliceCaches(cfg, s, t, s');
    ShiftStep(cfg, s, s', t, InPool(s.threads[t].i), InFlight(t, s.threads[t].i));
  }

  // ---- Pushing -----------------------------------------------------------------------------------

  /** t's pointer goes to the front of p, its own cache or its class's pool. */
  ghost predicate Pushes(cfg: Config, s: Sys, s': Sys, t: nat, p: Place, at': Label) {
    && t in s.threads && (p == InPool(s.threads[t].i) || p == InCache(t, s.threads[t].i))
    && var th, x := s.threads[t], s.threads[t].ptr - SLOT_HEADER;
    && IsFreeing(th.at) && x in s.sl.live && s.sl.live[x] == th.i < CLASSES
    && IsFreed(at') && !HasFlight(at')
    && (at'.Detaching? ==> p == InCache(t, th.i) && |At(s.sl, p)| == TC.CAP)
    && (p == InCache(t, th.i) && !at'.Detaching? ==> |At(s.sl, p)| < TC.CAP)
    && s' == Put(s.(sl := PushSlots(s.sl, p, x), words := s.words[x := LinkTo(At(s.sl, p), 0)]), t,
                 th.(at := at', ptr := 0))
    && Holds(cfg, s'.threads[t]) == Holds(cfg, th)
  }

  lemma PushMemory(cfg: Config, s: Sys, s': Sys, t: nat, p: Place, at': Label)
    requires MemoryOk(cfg, s) && Pushes(cfg, s, s', t, p, at')
    ensures SlotStepOf(cfg, s, s', t) && LiveMoves(s, s', {s.threads[t].ptr}, {})
  {
    var x := s.threads[t].ptr - SLOT_HEADER;
    assert LiveOk(cfg.addr, s.sl, s.words, x);
    PushKeeps(cfg.addr, s.sl, s.words, s.os.mapped, p, x);
    HeaderWrite(s, p.i, x, LinkTo(At(s.sl, p), 0));
    OwnPlacesOnly(s, s', t, p, p);
  }

  lemma PushCaches(cfg: Config, s: Sys, s': Sys, t: nat, p: Place, at': Label)
    requires Pushes(cfg, s, s', t, p, at') && CachesOk(s, t, s.threads[t])
    ensures CachesOk(s', t, s'.threads[t])
  {
    forall j ensures CacheOk(s', t, s'.threads[t], j) {
      assert CacheOk(s, t, s.threads[t], j);
    }
  }

  lemma PushRegs(s: Sys, s': Sys, th: Thread, at': Label)
    requires RegsOk(s, th) && IsFreeing(th.at) && IsFreed(at')
    requires KnowsClass(at') ==> th.i < CLASSES
    requires th.result != 0 ==> Kept(s, s', th.result)
    ensures RegsOk(s', th.(at := at', ptr := 0))
  {
    if th.result != 0 {
      SourceKept(s, s', th.result, th.data);
    }
  }

  lemma PushThread(cfg: Config, s: Sys, s': Sys, t: nat, p: Place, at': Label)
    requires MemoryOk(cfg, s) && Ready(s, t) && Pushes(cfg, s, s', t, p, at') && SlotStepOf(cfg, s, s', t)
    ensures RegsOk(s', s'.threads[t]) && Exchanged(s, s', t, {s.threads[t].ptr}, {})
  {
    var th := s.threads[t];
    if th.result != 0 {
      assert th.result in Regs(th);
      SlotKept(cfg, s, s', th.result);
    }
    PushRegs(s, s', th, at');
  }

  lemma PushStep(cfg: Config, s: Sys, s': Sys, t: nat, p: Place, at': Label)
    requires Inv(cfg, s) && Pushes(cfg, s, s', t, p, at')
    ensures Inv(cfg, s') && Quiet(s, s', t)
  {
    IsReady(cfg, s, t);
    PushMemory(cfg, s, s', t, p, at');
    PushThread(cfg, s, s', t, p, at');
    PushCaches(cfg, s, s', t, p, at');
    SlotStep(cfg, s, s', t, {s.threads[t].ptr}, {});
  }

  lemma CachePushes(cfg: Config, s: Sys, t: nat, s': Sys)
    requires Ready(s, t) && CachePush(s, t, s')
    ensures Pushes(cfg, s, s', t, InCache(t, s.threads[t].i), s'.threads[t].at)
  {
    assert CacheOk(s, t, s.threads[t], s.threads[t].i);
  }

  lemma CachePushKeeps(cfg: Config, s: Sys, t: nat, s': Sys)
    requires Inv(cfg, s) && CachePush(s, t, s')
    ensures Inv(cfg, s') && Quiet(s, s', t)
  {
    IsReady(cfg, s, t);
    CachePushes(cfg, s, t, s');
    PushStep(cfg, s, s', t, InCache(t, s.threads[t].i), s'.threads[t].at);
  }

  lemma PoolPushes(cfg: Config, s: Sys, t: nat, s': Sys)
    requires Ready(s, t) && PoolPush(cfg, s, t, s')
    ensures Pushes(cfg, s, s', t, InPool(s.threads[t].i), s'.threads[t].at)
  {
  }

  lemma PoolPushKeeps(cfg: Config, s: Sys, t: nat, s': Sys)
    requires Inv(cfg, s) && PoolPush(cfg, s, t, s')
    ensures Inv(cfg, s') && Quiet(s, s', t)
  {
    IsReady(cfg, s, t);
    PoolPushes(cfg, s, t, s');
    PushStep(cfg, s, s', t, InPool(s.threads[t].i), s'.threads[t].at);
  }
}
