/** Lock discipline in terms of memory: every word a thread writes is its own, or is guarded by a
    mutex it holds, so that no two threads are ever about to write the same word. */
module ThreadGuards {
  import opened Machine
  import opened BlockTags
  import opened FreeLists
  import opened HeapModel
  import opened SlotSystem
  import opened Threads
  import opened ThreadInvariant
  import opened ThreadProof
  import opened ThreadSlotProof
  import opened ThreadHeapProof
  import opened ThreadLaws
  import GP = GeneralPath
  import MP = MemoryPool

  // ---- Who may write a word --------------------------------------------------------------------

  ghost predicate OwnPlace(t: nat, q: Place) {
    !q.InPool? && q.t == t
  }

  /** A slot in t's caches and batches. */
  ghost predicate CachedBy(s: Sys, t: nat, w: int) {
    exists q :: OwnPlace(t, q) && w in At(s.sl, q)
  }

  /** The tag or a payload word of the pointer p. */
  ghost predicate InExtent(s: Sys, p: int, w: int) {
    w == p - HEADER || p <= w < p + Cap(s, p)
  }

  /** A payload word, or the tag of a slot, of a pointer in t's registers. */
  ghost predicate InHands(s: Sys, t: nat, w: int) {
    exists p :: Owns(s, t, p) && InExtent(s, p, w) && (w == p - HEADER ==> w in s.sl.live)
  }

  /** A slot in the chain of a pool whose mutex t holds. */
  ghost predicate InLockedPool(cfg: Config, s: Sys, t: nat, w: int) {
    && t in s.threads
    && exists j: nat :: w in At(s.sl, InPool(j)) && Holds(cfg, s.threads[t]) == Some(PoolLock(cfg, j))
  }

  /** A word of an arena of the general path, whose mutex t holds, that is neither the tag nor
      the payload of a pointer t does not own. */
  ghost predicate InLockedHeap(cfg: Config, s: Sys, t: nat, w: int) {
    && t in s.threads && Holds(cfg, s.threads[t]) == Some(GeneralLock(cfg))
    && GP.InArenas(s.heap.arenas, w)
    && forall p | PtrLive(s, p) && !Owns(s, t, p) :: !InExtent(s, p, w)
  }

  ghost predicate MayWrite(cfg: Config, s: Sys, t: nat, w: int) {
    CachedBy(s, t, w) || InHands(s, t, w) || InLockedPool(cfg, s, t, w) || InLockedHeap(cfg, s, t, w)
  }

  // ---- Every write is allowed --------------------------------------------------------------------

  lemma ControlWritesNothing(cfg: Config, s: Sys, t: nat, s': Sys)
    requires ControlAct(cfg, s, t, s')
    ensures s'.words == s.words
  {
  }

  lemma RefillWrites(cfg: Config, s: Sys, t: nat, s': Sys, w: int)
    requires RefillTake(s, t, s') && w in s.words && w in s'.words && s'.words[w] != s.words[w]
    ensures CachedBy(s, t, w) || InLockedPool(cfg, s, t, w)
  {
    var i := s.threads[t].i;
    assert OwnPlace(t, InFlight(t, i));
    assert w in At(s.sl, InFlight(t, i)) || w in At(s.sl, InPool(i));
  }

  lemma FlushWrites(cfg: Config, s: Sys, t: nat, s': Sys, w: int)
    requires Detach(s, t, s') || SpliceBack(cfg, s, t, s')
    requires w in s.words && w in s'.words && s'.words[w] != s.words[w]
    ensures CachedBy(s, t, w)
  {
    var i := s.threads[t].i;
    assert OwnPlace(t, InFlight(t, i)) && OwnPlace(t, InCache(t, i));
    assert w in At(s.sl, InFlight(t, i)) || w in At(s.sl, InCache(t, i));
  }

  lemma TakeWrites(cfg: Config, s: Sys, t: nat, s': Sys, w: int)
    requires Dispatch(cfg, s, t, s') || PoolTake(cfg, s, t, s')
    requires w in s.words && w in s'.words && s'.words[w] != s.words[w]
    ensures CachedBy(s, t, w) || InLockedPool(cfg, s, t, w)
  {
    if Dispatch(cfg, s, t, s') {
      var q := InCache(t, ClassFor(s.threads[t].n));
      assert OwnPlace(t, q) && w in At(s.sl, q);
    } else {
      assert w in At(s.sl, InPool(s.threads[t].i));
    }
  }

  lemma PushWrites(cfg: Config, s: Sys, t: nat, s': Sys, w: int)
    requires Ready(s, t) && (CachePush(s, t, s') || PoolPush(cfg, s, t, s'))
    requires w in s.words && w in s'.words && s'.words[w] != s.words[w]
    ensures InHands(s, t, w)
  {
    var p := s.threads[t].ptr;
    assert p in Regs(s.threads[t]) && Owns(s, t, p) && InExtent(s, p, w);
  }

  lemma SlotActWrites(cfg: Config, s: Sys, t: nat, s': Sys, w: int)
    requires Ready(s, t) && MemoryOk(cfg, s) && SlotAct(cfg, s, t, s')
    requires w in s.words && w in s'.words && s'.words[w] != s.words[w]
    ensures MayWrite(cfg, s, t, w)
  {
    if RefillTake(s, t, s') {
      RefillWrites(cfg, s, t, s', w);
    } else if Detach(s, t, s') || SpliceBack(cfg, s, t, s') {
      FlushWrites(cfg, s, t, s', w);
    } else if Dispatch(cfg, s, t, s') || PoolTake(cfg, s, t, s') {
      TakeWrites(cfg, s, t, s', w);
    } else if CachePush(s, t, s') || PoolPush(cfg, s, t, s') {
      PushWrites(cfg, s, t, s', w);
    } else {
      OthersWriteNothing(cfg, s, t, s', w);
    }
  }

  lemma OthersWriteNothing(cfg: Config, s: Sys, t: nat, s': Sys, w: int)
    requires MemoryOk(cfg, s) && Ready(s, t) && w in s.words && w in s'.words
    requires ExpandGranted(s, t, s') || ExpandRefused(cfg, s, t, s') || RefillFull(cfg, s, t, s') || Install(s, t, s')
    ensures s'.words[w] == s.words[w]
  {
    if ExpandGranted(s, t, s') {
      TotalAligned(s.threads[t].i);
      AskGrants(s.os, Total(s.threads[t].i) * MP.SLOTS_PER_ARENA);
    }
  }

  lemma CopyWrites(cfg: Config, s: Sys, t: nat, s': Sys, w: int)
    requires MemoryOk(cfg, s) && Ready(s, t) && Copy(s, t, s')
    requires w in s.words && w in s'.words && s'.words[w] != s.words[w]
    ensures InHands(s, t, w)
  {
    var p := s.threads[t].result;
    CopyLands(cfg, s, t, s');
    assert p in Regs(s.threads[t]) && Owns(s, t, p) && InExtent(s, p, w);
  }

  /** Steps inside the general critical sections. */
  ghost predicate HeapSection(cfg: Config, s: Sys, t: nat, s': Sys) {
    GeneralTake(cfg, s, t, s'.words, s') || GeneralRelease(cfg, s, t, s'.words, s') || Resize(cfg, s, t, s'.words, s')
  }

  lemma SectionWrites(cfg: Config, s: Sys, t: nat, s': Sys, w: int)
    requires MemoryOk(cfg, s) && MemoryOk(cfg, s') && HeapSection(cfg, s, t, s') && Quiet(s, s', t)
    requires w in s.words && w in s'.words && s'.words[w] != s.words[w]
    ensures InLockedHeap(cfg, s, t, w)
  {
    SectionStaysInside(cfg, s, t, s', w);
    forall p | PtrLive(s, p) && !Owns(s, t, p) ensures !InExtent(s, p, w) {
      if InExtent(s, p, w) {
        ForeignExtent(cfg, s, t, s', p, w);
      }
    }
  }

  lemma SectionStaysInside(cfg: Config, s: Sys, t: nat, s': Sys, w: int)
    requires HeapSection(cfg, s, t, s') && w in s.words && w in s'.words && s'.words[w] != s.words[w]
    ensures t in s.threads && Holds(cfg, s.threads[t]) == Some(GeneralLock(cfg)) && GP.InArenas(s.heap.arenas, w)
  {
  }

  /** The extent of a pointer t does not own, header included, is as it was. */
  lemma ForeignExtent(cfg: Config, s: Sys, t: nat, s': Sys, p: int, w: int)
    requires MemoryOk(cfg, s) && MemoryOk(cfg, s') && t in s.threads && Quiet(s, s', t)
    requires PtrLive(s, p) && !Owns(s, t, p) && InExtent(s, p, w)
    requires w in s.words && w in s'.words
    ensures s'.words[w] == s.words[w]
  {
    var a := p - HEADER;
    assert Spared(s, s', t, p) && Kept(s, s', p);
    if w == a && a in s.sl.live {
      assert LiveOk(cfg.addr, s.sl, s.words, a) && LiveOk(cfg.addr, s'.sl, s'.words, a);
    } else if w == a {
      assert GP.TagOk(s.words, s.heap.blocks, a) && GP.TagOk(s'.words, s'.heap.blocks, a);
    }
  }

  /** Whatever word a step of t changes, t owns it or holds the mutex that guards it. */
  lemma WritesAreGuarded(cfg: Config, s: Sys, t: nat, s': Sys, w: int)
    requires Inv(cfg, s) && ThreadStep(cfg, s, t, s') && w in s.words
    ensures w in s'.words && (s'.words[w] != s.words[w] ==> MayWrite(cfg, s, t, w))
  {
    StepKeeps(cfg, s, t, s');
    WordsStay(cfg, s, t, s', w);
    if s'.words[w] != s.words[w] {
      StepOwner(cfg, s, t, s');
      IsReady(cfg, s, t);
      StepActs(cfg, s, t, s');
      if ControlAct(cfg, s, t, s') {
        ControlWritesNothing(cfg, s, t, s');
      } else if SlotAct(cfg, s, t, s') {
        SlotActWrites(cfg, s, t, s', w);
      } else if Copy(s, t, s') {
        CopyWrites(cfg, s, t, s', w);
      } else {
        SectionWrites(cfg, s, t, s', w);
      }
    }
  }

  lemma StepOwner(cfg: Config, s: Sys, t: nat, s': Sys)
    requires ThreadStep(cfg, s, t, s')
    ensures t in s.threads
  {
  }

  /** Memory is never unmapped. */
  lemma WordsStay(cfg: Config, s: Sys, t: nat, s': Sys, w: int)
    requires Inv(cfg, s) && Inv(cfg, s') && ThreadStep(cfg, s, t, s') && w in s.words
    ensures w in s'.words
  {
    StepActs(cfg, s, t, s');
    if ControlAct(cfg, s, t, s') {
      ControlWritesNothing(cfg, s, t, s');
    } else if SlotAct(cfg, s, t, s') {
      SlotWordsStay(cfg, s, t, s', w);
    } else {
      HeapWordsStay(cfg, s, t, s', w);
    }
  }

  lemma HeapWordsStay(cfg: Config, s: Sys, t: nat, s': Sys, w: int)
    requires HeapAct(cfg, s, t, s') && w in s.words
    ensures w in s'.words
  {
  }

  lemma SlotWordsStay(cfg: Config, s: Sys, t: nat, s': Sys, w: int)
    requires SlotAct(cfg, s, t, s') && w in s.words
    ensures w in s'.words
  {
  }

  // ---- No two threads may write the same word --------------------------------------------------

  /** A slot in a chain is in nobody's hands. */
  lemma ChainedInNoHands(cfg: Config, s: Sys, q: Place, w: int, p: int)
    requires MemoryOk(cfg, s) && w in At(s.sl, q) && PtrLive(s, p)
    ensures IsSlot(s.sl, q.i, w) && !InExtent(s, p, w)
  {
    assert PlaceOk(s.sl, s.words, q);
    HeaderOutsidePayload(cfg, s, q.i, w, p);
    SlotIsNoBlock(cfg, s, q.i, w);
  }

  /** No slot lies in an arena of the general path. */
  lemma ChainedInNoArena(cfg: Config, s: Sys, q: Place, w: int)
    requires MemoryOk(cfg, s) && w in At(s.sl, q)
    ensures !GP.InArenas(s.heap.arenas, w)
  {
    assert PlaceOk(s.sl, s.words, q);
    if k :| 0 <= k < |s.heap.arenas| && s.heap.arenas[k].base <= w < s.heap.arenas[k].base + s.heap.arenas[k].size {
      SlotClearOfArena(cfg, s, q.i, w, k);
      TotalAligned(q.i);
    }
  }

  lemma ExtentsApart(cfg: Config, s: Sys, p: int, q: int, w: int)
    requires MemoryOk(cfg, s) && PtrLive(s, p) && PtrLive(s, q) && InExtent(s, p, w) && InExtent(s, q, w)
    ensures p == q
  {
    LiveNonNull(cfg, s, p);
    LiveNonNull(cfg, s, q);
    if p != q {
      LiveApart(cfg, s, p, q);
    }
  }

  lemma InNoChain(cfg: Config, s: Sys, u: nat, w: int)
    requires MemoryOk(cfg, s) && OwnershipOk(s) && InHands(s, u, w)
    ensures forall q :: w !in At(s.sl, q)
  {
    var p :| Owns(s, u, p) && InExtent(s, p, w);
    forall q ensures w !in At(s.sl, q) {
      if w in At(s.sl, q) {
        ChainedInNoHands(cfg, s, q, w, p);
      }
    }
  }

  /** In every reachable state, a word that thread t may write no other thread may write. */
  lemma NoWriteConflict(cfg: Config, s: Sys, t: nat, u: nat, w: int)
    requires Inv(cfg, s) && MayWrite(cfg, s, t, w) && MayWrite(cfg, s, u, w)
    ensures t == u
  {
    if InHands(s, t, w) {
      HandsAreExclusive(cfg, s, t, u, w);
    } else if InHands(s, u, w) {
      HandsAreExclusive(cfg, s, u, t, w);
    } else if q :| w in At(s.sl, q) {
      ChainedInNoArena(cfg, s, q, w);
      ChainsAreExclusive(cfg, s, t, u, q, w);
    } else {
      assert InLockedHeap(cfg, s, t, w) && InLockedHeap(cfg, s, u, w);
    }
  }

  lemma HandsAreExclusive(cfg: Config, s: Sys, t: nat, u: nat, w: int)
    requires Inv(cfg, s) && InHands(s, t, w) && MayWrite(cfg, s, u, w)
    ensures t == u
  {
    InNoChain(cfg, s, t, w);
    var p :| Owns(s, t, p) && InExtent(s, p, w);
    assert PtrLive(s, p);
    if InHands(s, u, w) {
      var q :| Owns(s, u, q) && InExtent(s, q, w);
      ExtentsApart(cfg, s, p, q, w);
    }
  }

  lemma ChainsAreExclusive(cfg: Config, s: Sys, t: nat, u: nat, q: Place, w: int)
    requires Inv(cfg, s) && w in At(s.sl, q)
    requires CachedBy(s, t, w) || InLockedPool(cfg, s, t, w)
    requires CachedBy(s, u, w) || InLockedPool(cfg, s, u, w)
    ensures t == u
  {
    assert Exclusive(s.sl);
    if q.InPool? {
      assert InLockedPool(cfg, s, t, w) && InLockedPool(cfg, s, u, w);
    } else {
      assert CachedBy(s, t, w) && CachedBy(s, u, w);
    }
  }

  // ---- Which mutex guards what -------------------------------------------------------------------

  /** Inside a section of the pool of class i, or leaving it with that pool's own mutex. */
  predicate OnClass(th: Thread, i: nat) {
    || ((th.at.Refilling? || th.at.PoolAlloc? || th.at.Flushing? || th.at.PoolFree?) && th.i == i)
    || (th.at.Leave? && th.at.m == PoolMutex(i))
  }

  /** Inside a section of the general path, or leaving it with that path's own mutex. */
  predicate OnGeneral(th: Thread) {
    th.at.GeneralAlloc? || th.at.GeneralFree? || th.at.Resizing? || (th.at.Leave? && th.at.m == GeneralMutex)
  }

  predicate InSection(th: Thread) {
    || th.at.Refilling? || th.at.PoolAlloc? || th.at.Flushing? || th.at.PoolFree?
    || th.at.GeneralAlloc? || th.at.GeneralFree? || th.at.Resizing? || th.at.Leave?
  }

  /** About to enter a section of the pool of class i. */
  predicate AtPoolDoor(th: Thread, i: nat) {
    (th.at.RefillWait? || th.at.PoolWait? || th.at.FlushWait? || th.at.PoolFreeWait?) && th.i == i
  }

  predicate AtGeneralDoor(th: Thread) {
    th.at.GeneralWait? || th.at.GeneralFreeWait? || th.at.ResizeWait?
  }

  /** A thread that leaves a section releases the mutex of that section. */
  predicate LeavesOwn(cfg: Config, th: Thread) {
    th.at.Leave? ==> th.at.m == PoolLock(cfg, th.i) || th.at.m == GeneralLock(cfg)
  }

  lemma UnlockLeavesOwn(cfg: Config, s: Sys, t: nat, s': Sys)
    requires (Acquire(cfg, s, t, s') || Unlock(s, t, s')) && Sensible(s.threads[t].at)
    ensures t in s'.threads && !s'.threads[t].at.Leave?
  {
  }

  lemma RouteLeavesOwn(cfg: Config, s: Sys, t: nat, s': Sys)
    requires ReadTag(cfg, s, t, s') || ReallocRoute(cfg, s, t, s')
    ensures t in s'.threads && !s'.threads[t].at.Leave?
  {
  }

  lemma ControlLeavesOwn(cfg: Config, s: Sys, t: nat, s': Sys)
    requires ControlAct(cfg, s, t, s') && RegsOk(s, s.threads[t])
    ensures t in s'.threads && LeavesOwn(cfg, s'.threads[t])
  {
    if Acquire(cfg, s, t, s') || Unlock(s, t, s') {
      UnlockLeavesOwn(cfg, s, t, s');
    } else if ReadTag(cfg, s, t, s') || ReallocRoute(cfg, s, t, s') {
      RouteLeavesOwn(cfg, s, t, s');
    }
  }

  lemma RefillLeavesOwn(cfg: Config, s: Sys, t: nat, s': Sys)
    requires RefillTake(s, t, s') || ExpandGranted(s, t, s') || ExpandRefused(cfg, s, t, s')
             || RefillFull(cfg, s, t, s') || Install(s, t, s')
    requires LeavesOwn(cfg, s.threads[t])
    ensures t in s'.threads && LeavesOwn(cfg, s'.threads[t])
  {
  }

  lemma SlotLeavesOwn(cfg: Config, s: Sys, t: nat, s': Sys)
    requires Dispatch(cfg, s, t, s') || PoolTake(cfg, s, t, s') || CachePush(s, t, s')
             || Detach(s, t, s') || SpliceBack(cfg, s, t, s') || PoolPush(cfg, s, t, s')
    ensures t in s'.threads && LeavesOwn(cfg, s'.threads[t])
  {
  }

  lemma HeapLeavesOwn(cfg: Config, s: Sys, t: nat, s': Sys)
    requires HeapAct(cfg, s, t, s')
    ensures t in s'.threads && LeavesOwn(cfg, s'.threads[t])
  {
  }

  lemma StepLeavesOwn(cfg: Config, s: Sys, t: nat, s': Sys)
    requires ThreadStep(cfg, s, t, s') && t in s.threads && RegsOk(s, s.threads[t]) && LeavesOwn(cfg, s.threads[t])
    ensures t in s'.threads && LeavesOwn(cfg, s'.threads[t])
  {
    StepActs(cfg, s, t, s');
    if ControlAct(cfg, s, t, s') {
      ControlLeavesOwn(cfg, s, t, s');
    } else if HeapAct(cfg, s, t, s') {
      HeapLeavesOwn(cfg, s, t, s');
    } else if RefillTake(s, t, s') || ExpandGranted(s, t, s') || ExpandRefused(cfg, s, t, s')
              || RefillFull(cfg, s, t, s') || Install(s, t, s') {
      RefillLeavesOwn(cfg, s, t, s');
    } else {
      SlotLeavesOwn(cfg, s, t, s');
    }
  }

  lemma NextLeavesOwn(cfg: Config, s: Sys, s': Sys, u: nat)
    requires Inv(cfg, s) && Next(cfg, s, s') && u in s'.threads && (u in s.threads ==> LeavesOwn(cfg, s.threads[u]))
    ensures u in s.threads && LeavesOwn(cfg, s'.threads[u])
  {
    if t :| ThreadStep(cfg, s, t, s') {
      StepKeeps(cfg, s, t, s');
      if t == u {
        assert ThreadOk(s, t);
        StepLeavesOwn(cfg, s, t, s');
      }
    }
  }

  lemma FollowLeavesOwn(cfg: Config, run: seq<Sys>, k: nat, u: nat)
    requires IsRun(cfg, run) && k + 1 < |run| && u in run[k + 1].threads
    requires u in run[k].threads ==> LeavesOwn(cfg, run[k].threads[u])
    ensures LeavesOwn(cfg, run[k + 1].threads[u])
  {
    RunInv(cfg, run, k);
    assert Follows(cfg, run, k);
    NextLeavesOwn(cfg, run[k], run[k + 1], u);
  }

  lemma {:induction false} RunLeavesOwn(cfg: Config, run: seq<Sys>, k: nat, u: nat)
    requires IsRun(cfg, run) && k < |run| && u in run[k].threads
    ensures LeavesOwn(cfg, run[k].threads[u])
  {
    if k == 0 {
      assert run[0].threads[u] == IDLE_THREAD;
    } else {
      if u in run[k - 1].threads {
        RunLeavesOwn(cfg, run, k - 1, u);
      }
      FollowLeavesOwn(cfg, run, k - 1, u);
    }
  }

  ghost predicate CanEnter(cfg: Config, s: Sys, t: nat) {
    exists s' :: Acquire(cfg, s, t, s')
  }

  lemma EntersWhenFree(cfg: Config, s: Sys, t: nat)
    requires t in s.threads && WaitsFor(cfg, s.threads[t]).Some?
    ensures CanEnter(cfg, s, t) <==> WaitsFor(cfg, s.threads[t]).value !in s.owner
  {
    var th, m := s.threads[t], WaitsFor(cfg, s.threads[t]).value;
    if m !in s.owner {
      assert Acquire(cfg, s, t, Put(s.(owner := s.owner[m := t]), t, th.(at := Entered(th.at))));
    }
  }

  lemma ClassLabels(cfg: Config, th: Thread, i: nat)
    requires cfg.stage != 1
    ensures OnClass(th, i) <==> Holds(cfg, th) == Some(PoolMutex(i))
    ensures AtPoolDoor(th, i) ==> WaitsFor(cfg, th) == Some(PoolMutex(i))
  {
  }

  lemma GeneralLabels(cfg: Config, th: Thread)
    requires cfg.stage != 1
    ensures OnGeneral(th) <==> Holds(cfg, th) == Some(GeneralMutex)
    ensures AtGeneralDoor(th) ==> WaitsFor(cfg, th) == Some(GeneralMutex)
  {
  }

  lemma StageOneLabels(cfg: Config, th: Thread)
    requires cfg.stage == 1 && LeavesOwn(cfg, th)
    ensures InSection(th) <==> Holds(cfg, th) == Some(GlobalMutex)
    ensures AtGeneralDoor(th) || AtPoolDoor(th, th.i) ==> WaitsFor(cfg, th) == Some(GlobalMutex)
  {
  }

  /** In stage 1 no two threads are in sections at once, of pools or of the general path, and a
      thread at the door of one can enter exactly when nobody is in any. */
  ghost predicate OneSection(cfg: Config, s: Sys, t: nat)
    requires t in s.threads
  {
    && (InSection(s.threads[t]) ==> forall u | u in s.threads && InSection(s.threads[u]) :: u == t)
    && (AtGeneralDoor(s.threads[t]) || AtPoolDoor(s.threads[t], s.threads[t].i) ==>
          (CanEnter(cfg, s, t) <==> forall u | u in s.threads :: !InSection(s.threads[u])))
  }

  /** A pool's section excludes only sections of the same pool: a thread at its door can enter
      exactly when nobody is in one. */
  ghost predicate ClassSection(cfg: Config, s: Sys, t: nat, i: nat)
    requires t in s.threads
  {
    && (OnClass(s.threads[t], i) ==> forall u | u in s.threads && OnClass(s.threads[u], i) :: u == t)
    && (AtPoolDoor(s.threads[t], i) ==>
          (CanEnter(cfg, s, t) <==> forall u | u in s.threads :: !OnClass(s.threads[u], i)))
  }

  /** The same for the general path. */
  ghost predicate GeneralSection(cfg: Config, s: Sys, t: nat)
    requires t in s.threads
  {
    && (OnGeneral(s.threads[t]) ==> forall u | u in s.threads && OnGeneral(s.threads[u]) :: u == t)
    && (AtGeneralDoor(s.threads[t]) ==>
          (CanEnter(cfg, s, t) <==> forall u | u in s.threads :: !OnGeneral(s.threads[u])))
  }

  lemma OneSectionHolds(cfg: Config, s: Sys, t: nat)
    requires LocksOk(cfg, s) && cfg.stage == 1 && t in s.threads
    requires forall u | u in s.threads :: LeavesOwn(cfg, s.threads[u])
    ensures OneSection(cfg, s, t)
  {
    forall u | u in s.threads ensures InSection(s.threads[u]) <==> Holds(cfg, s.threads[u]) == Some(GlobalMutex) {
      StageOneLabels(cfg, s.threads[u]);
    }
    StageOneLabels(cfg, s.threads[t]);
    if AtGeneralDoor(s.threads[t]) || AtPoolDoor(s.threads[t], s.threads[t].i) {
      EntersWhenFree(cfg, s, t);
    }
  }

  lemma ClassSectionHolds(cfg: Config, s: Sys, t: nat, i: nat)
    requires LocksOk(cfg, s) && cfg.stage != 1 && t in s.threads
    ensures ClassSection(cfg, s, t, i)
  {
    forall u | u in s.threads ensures OnClass(s.threads[u], i) <==> Holds(cfg, s.threads[u]) == Some(PoolMutex(i)) {
      ClassLabels(cfg, s.threads[u], i);
    }
    ClassLabels(cfg, s.threads[t], i);
    if AtPoolDoor(s.threads[t], i) {
      EntersWhenFree(cfg, s, t);
    }
  }

  lemma GeneralSectionHolds(cfg: Config, s: Sys, t: nat)
    requires LocksOk(cfg, s) && cfg.stage != 1 && t in s.threads
    ensures GeneralSection(cfg, s, t)
  {
    forall u | u in s.threads ensures OnGeneral(s.threads[u]) <==> Holds(cfg, s.threads[u]) == Some(GeneralMutex) {
      GeneralLabels(cfg, s.threads[u]);
    }
    GeneralLabels(cfg, s.threads[t]);
    if AtGeneralDoor(s.threads[t]) {
      EntersWhenFree(cfg, s, t);
    }
  }

  /** Which sections exclude which, on every run: in stage 1 all of them each other, in stages 2
      and 3 those of one pool, and those of the general path. */
  lemma SectionsExclude(cfg: Config, run: seq<Sys>, k: nat, t: nat, i: nat)
    requires IsRun(cfg, run) && k < |run| && t in run[k].threads
    ensures if cfg.stage == 1 then OneSection(cfg, run[k], t)
            else ClassSection(cfg, run[k], t, i) && GeneralSection(cfg, run[k], t)
  {
    RunInv(cfg, run, k);
    if cfg.stage == 1 {
      var s := run[k];
      forall u | u in s.threads ensures LeavesOwn(cfg, s.threads[u]) {
        RunLeavesOwn(cfg, run, k, u);
      }
      OneSectionHolds(cfg, s, t);
    } else {
      ClassSectionHolds(cfg, run[k], t, i);
      GeneralSectionHolds(cfg, run[k], t);
    }
  }

  // ---- Along every run ---------------------------------------------------------------------------

  /** On every run, a word that a step of t changes is one that no other thread may write then. */
  lemma RunHasNoWriteConflict(cfg: Config, run: seq<Sys>, k: nat, t: nat, u: nat, w: int)
    requires IsRun(cfg, run) && k + 1 < |run| && ThreadStep(cfg, run[k], t, run[k + 1])
    requires w in run[k].words && (w in run[k + 1].words ==> run[k + 1].words[w] != run[k].words[w])
    ensures MayWrite(cfg, run[k], t, w) && (u != t ==> !MayWrite(cfg, run[k], u, w))
  {
    RunInv(cfg, run, k);
    WritesAreGuarded(cfg, run[k], t, run[k + 1], w);
    if u != t && MayWrite(cfg, run[k], u, w) {
      NoWriteConflict(cfg, run[k], t, u, w);
    }
  }

  /** In every reachable state memory spells out the general heap, as each of its critical
      sections requires on entry. */
  lemma MemoryHoldsHeap(cfg: Config, run: seq<Sys>, k: nat)
    requires IsRun(cfg, run) && k < |run|
    ensures GP.Represents(run[k].words, run[k].head, run[k].heap) && Valid(run[k].heap)
  {
    RunInv(cfg, run, k);
    var s := run[k];
    forall i | 0 <= i < |s.heap.arenas|
      ensures WordsOf(Region(s.heap.arenas[i].base, s.heap.arenas[i].size)) <= s.words.Keys
    {
      assert WordsOf(Region(s.heap.arenas[i].base, s.heap.arenas[i].size)) <= s.os.mapped;
    }
  }
}
