/** What the invariant means to clients: safety of live pointers, exact routing, conservation of
    slots, lock discipline and the contract of my_realloc, on every run. */
module ThreadSafety {
  import opened Machine
  import opened BlockTags
  import opened FreeLists
  import opened HeapModel
  import opened Chains
  import opened MemoryPool
  import opened SlotSystem
  import opened Threads
  import opened ThreadInvariant
  import opened ThreadProof
  import opened ThreadSlotProof
  import opened ThreadHeapProof
  import opened ThreadLaws
  import GP = GeneralPath
  import TC = ThreadCache
  import HL = HeapLaws

  // ---- Live pointers ---------------------------------------------------------------------------

  lemma ExtentMapped(cfg: Config, s: Sys, p: int)
    requires MemoryOk(cfg, s) && PtrLive(s, p)
    ensures WordsOf(Region(p - HEADER, HEADER + Cap(s, p))) <= s.os.mapped
  {
    var a := p - HEADER;
    if a in s.sl.live {
      assert LiveOk(cfg.addr, s.sl, s.words, a) && Mapped(s.os.mapped, s.sl.live[a], a);
    } else {
      BlockInArena(s, a);
      var arena := s.heap.arenas[s.heap.blocks[a].arena];
      assert WordsOf(Region(arena.base, arena.size)) <= s.os.mapped;
    }
  }

  /** In every state of every run, a live pointer is aligned, and its header and payload lie in
      memory the system has granted, clear of the header and payload of every other. */
  lemma LiveIsSafe(cfg: Config, run: seq<Sys>, k: nat, p: int, q: int)
    requires IsRun(cfg, run) && k < |run| && PtrLive(run[k], p) && PtrLive(run[k], q)
    ensures p > HEADER && p % 16 == 0 && 0 < Cap(run[k], p)
    ensures WordsOf(Region(p - HEADER, HEADER + Cap(run[k], p))) <= run[k].os.mapped
    ensures p != q ==> p + Cap(run[k], p) <= q - HEADER || q + Cap(run[k], q) <= p - HEADER
  {
    RunInv(cfg, run, k);
    LiveNonNull(cfg, run[k], p);
    ExtentMapped(cfg, run[k], p);
    if p != q {
      LiveApart(cfg, run[k], p, q);
    }
  }

  /** Whatever my_malloc or my_realloc is about to return is live, its own thread's alone, and
      at least as large as the request. */
  lemma ResultIsLargeEnough(cfg: Config, run: seq<Sys>, k: nat, t: nat)
    requires IsRun(cfg, run) && k < |run| && t in run[k].threads
    requires var th := run[k].threads[t]; th.result != 0 && (th.at.Returning? || th.at.Freed?)
    ensures var th := run[k].threads[t];
            && PtrLive(run[k], th.result) && th.n <= Cap(run[k], th.result)
            && th.result !in run[k].held
            && forall u | Owns(run[k], u, th.result) :: u == t
  {
    RunInv(cfg, run, k);
    IsReady(cfg, run[k], t);
    assert Owns(run[k], t, run[k].threads[t].result);
  }

  // ---- Conservation of slots -------------------------------------------------------------------

  /** Every slot ever carved is, in every state, either live or in exactly one chain, once. */
  lemma SlotPartition(cfg: Config, run: seq<Sys>, k: nat, i: nat, x: int)
    requires IsRun(cfg, run) && k < |run| && IsSlot(run[k].sl, i, x)
    ensures var sl := run[k].sl;
            if x in sl.live then sl.live[x] == i && forall p :: x !in At(sl, p)
            else exists p: Place :: p.i == i && x in At(sl, p) && NoDuplicates(At(sl, p))
                                    && forall q | x in At(sl, q) :: q == p
  {
    RunInv(cfg, run, k);
    var sl, words := run[k].sl, run[k].words;
    assert Somewhere(sl, i, x);
    if x in sl.live {
      assert LiveOk(cfg.addr, sl, words, x);
      OneClass(sl, run[k].os.mapped, i, sl.live[x], x);
      forall p ensures x !in At(sl, p) {
        assert PlaceOk(sl, words, p);
      }
    } else {
      var p: Place :| p.i == i && x in At(sl, p);
      assert PlaceOk(sl, words, p);
    }
  }

  /** No step loses a slot. */
  lemma SlotsStay(cfg: Config, s: Sys, s': Sys, i: nat, x: int)
    requires Next(cfg, s, s') && IsSlot(s.sl, i, x)
    ensures IsSlot(s'.sl, i, x)
  {
    if t :| ThreadStep(cfg, s, t, s') {
      StepActs(cfg, s, t, s');
      if ControlAct(cfg, s, t, s') {
        ControlChangesNothing(cfg, s, t, s');
      } else if SlotAct(cfg, s, t, s') {
        SlotsOnlyAdded(cfg, s, t, s', i, x);
      }
    }
  }

  lemma SlotsOnlyAdded(cfg: Config, s: Sys, t: nat, s': Sys, i: nat, x: int)
    requires SlotAct(cfg, s, t, s') && IsSlot(s.sl, i, x)
    ensures IsSlot(s'.sl, i, x)
  {
  }

  /** Between calls and during them, the cache of a thread is a null-terminated chain of at most
      64 slots, 65 only between a push and the flush it causes, and a flush
      carries exactly 32 and leaves 33. */
  lemma CacheShape(cfg: Config, run: seq<Sys>, k: nat, t: nat, i: nat)
    requires IsRun(cfg, run) && k < |run| && t in run[k].threads
    ensures var sl, th := run[k].sl, run[k].threads[t];
            var cache, flight := At(sl, InCache(t, i)), At(sl, InFlight(t, i));
            && Chained(run[k].words, LinkTo(cache, 0), cache) && Chained(run[k].words, LinkTo(flight, 0), flight)
            && |cache| <= 65 && (|cache| == 65 ==> th.at.Detaching? && th.i == i)
            && (th.at.FlushWait? && th.i == i ==> |flight| == 32 && |cache| == 33)
            && (th.at.Idle? ==> |cache| <= 64 && flight == [])
  {
    RunInv(cfg, run, k);
    var s := run[k];
    assert ThreadOk(s, t) && CacheOk(s, t, s.threads[t], i);
    assert PlaceOk(s.sl, s.words, InCache(t, i)) && PlaceOk(s.sl, s.words, InFlight(t, i));
  }

  // ---- Routing ---------------------------------------------------------------------------------

  /** In every reachable state the word before a live payload names the payload's own pool, or,
      for a block of the general path, no pool. */
  lemma RoutingIsExact(cfg: Config, run: seq<Sys>, k: nat, p: int)
    requires IsRun(cfg, run) && k < |run| && PtrLive(run[k], p)
    ensures p - HEADER in run[k].words
    ensures var i := PoolOf(cfg, run[k].words[p - HEADER]);
            if p - HEADER in run[k].sl.live then i == Some(run[k].sl.live[p - HEADER])
            else i == None && IsLive(run[k].heap, p - HEADER)
  {
    RunInv(cfg, run, k);
    TagRoutes(cfg, run[k], p);
  }

  /** The word a pointer is routed by does not change under any step of a thread that does not
      own the pointer, so reading it without a lock is sound. */
  lemma TagIsStable(cfg: Config, s: Sys, t: nat, s': Sys, p: int)
    requires Inv(cfg, s) && ThreadStep(cfg, s, t, s') && PtrLive(s, p) && !Owns(s, t, p)
    ensures p - HEADER in s.words && p - HEADER in s'.words && s'.words[p - HEADER] == s.words[p - HEADER]
  {
    StepKeeps(cfg, s, t, s');
    StepOf(cfg, s, t, s');
    assert Spared(s, s', t, p) && Kept(s, s', p);
    var a := p - HEADER;
    if a in s.sl.live {
      assert LiveOk(cfg.addr, s.sl, s.words, a) && LiveOk(cfg.addr, s'.sl, s'.words, a);
    } else {
      assert GP.TagOk(s.words, s.heap.blocks, a) && GP.TagOk(s'.words, s'.heap.blocks, a);
    }
  }

  lemma StepOf(cfg: Config, s: Sys, t: nat, s': Sys)
    requires ThreadStep(cfg, s, t, s')
    ensures t in s.threads
  {
  }

  /** A client writing to any payload, of p or of another pointer, leaves every tag alone. */
  lemma WriteSparesTag(cfg: Config, s: Sys, q: int, k: int, value: int, s': Sys, p: int)
    requires Inv(cfg, s) && ClientWrite(s, q, k, value, s') && PtrLive(s, p)
    ensures p - HEADER in s.words && p - HEADER in s'.words && s'.words[p - HEADER] == s.words[p - HEADER]
  {
    LiveNonNull(cfg, s, p);
    LiveNonNull(cfg, s, q);
    if p != q {
      LiveApart(cfg, s, p, q);
    }
    TagRoutes(cfg, s, p);
  }

  /** Whatever happens next, the word a pointer is routed by stays the same, unless a thread takes
      a step on a pointer of its own. */
  lemma TagStaysUnread(cfg: Config, s: Sys, s': Sys, p: int)
    requires Inv(cfg, s) && Next(cfg, s, s') && PtrLive(s, p)
    requires forall t | ThreadStep(cfg, s, t, s') :: !Owns(s, t, p)
    ensures p - HEADER in s.words && p - HEADER in s'.words && s'.words[p - HEADER] == s.words[p - HEADER]
  {
    if t :| ThreadStep(cfg, s, t, s') {
      TagIsStable(cfg, s, t, s', p);
    } else {
      var q, k, value :| ClientWrite(s, q, k, value, s');
      WriteSparesTag(cfg, s, q, k, value, s', p);
    }
  }

  /** The payload of a pointer changes only under its owner's steps and its holder's writes. */
  lemma PayloadIsStable(cfg: Config, s: Sys, t: nat, s': Sys, p: int, w: int)
    requires Inv(cfg, s) && ThreadStep(cfg, s, t, s') && PtrLive(s, p) && !Owns(s, t, p)
    requires p <= w < p + Cap(s, p) && w in s.words
    ensures Cap(s', p) == Cap(s, p) && w in s'.words && s'.words[w] == s.words[w]
  {
    StepKeeps(cfg, s, t, s');
    StepOf(cfg, s, t, s');
    assert Spared(s, s', t, p) && Kept(s, s', p);
  }

  // ---- Locks -----------------------------------------------------------------------------------

  /** At most one thread is inside the critical sections of a mutex, and a thread inside one is
      not waiting for another, not even when my_realloc calls my_malloc and my_free. */
  lemma LocksExclude(cfg: Config, run: seq<Sys>, k: nat, t: nat, u: nat)
    requires IsRun(cfg, run) && k < |run| && t in run[k].threads && u in run[k].threads
    requires Holds(cfg, run[k].threads[t]).Some?
    ensures Holds(cfg, run[k].threads[u]) == Holds(cfg, run[k].threads[t]) ==> u == t
    ensures WaitsFor(cfg, run[k].threads[t]) == None
  {
    RunInv(cfg, run, k);
  }

  /** A pool's chain changes only under its lock, the general heap only under the general lock,
      and a thread's cache and batch only by the thread itself. */
  lemma GuardedByLocks(cfg: Config, s: Sys, t: nat, s': Sys, i: nat, u: nat)
    requires Inv(cfg, s) && ThreadStep(cfg, s, t, s')
    ensures t in s.threads
    ensures At(s'.sl, InPool(i)) != At(s.sl, InPool(i)) ==> Holds(cfg, s.threads[t]) == Some(PoolLock(cfg, i))
    ensures s'.heap != s.heap || s'.head != s.head ==> Holds(cfg, s.threads[t]) == Some(GeneralLock(cfg))
    ensures !SamePlaces(s, s', u, i) ==> u == t
  {
    StepKeeps(cfg, s, t, s');
    GuardedChains(cfg, s, t, s', i);
  }

  lemma GuardedChains(cfg: Config, s: Sys, t: nat, s': Sys, i: nat)
    requires ThreadStep(cfg, s, t, s')
    ensures t in s.threads
    ensures At(s'.sl, InPool(i)) != At(s.sl, InPool(i)) ==> Holds(cfg, s.threads[t]) == Some(PoolLock(cfg, i))
    ensures s'.heap != s.heap || s'.head != s.head ==> Holds(cfg, s.threads[t]) == Some(GeneralLock(cfg))
  {
    StepActs(cfg, s, t, s');
    if ControlAct(cfg, s, t, s') {
      ControlChangesNothing(cfg, s, t, s');
    } else if SlotAct(cfg, s, t, s') {
      SlotsAreGuarded(cfg, s, t, s', i);
    } else {
      HeapIsGuarded(cfg, s, t, s');
    }
  }

  lemma HeapIsGuarded(cfg: Config, s: Sys, t: nat, s': Sys)
    requires HeapAct(cfg, s, t, s')
    ensures t in s.threads && s'.sl == s.sl
    ensures s'.heap != s.heap || s'.head != s.head ==> Holds(cfg, s.threads[t]) == Some(GeneralLock(cfg))
  {
  }

  lemma ControlChangesNothing(cfg: Config, s: Sys, t: nat, s': Sys)
    requires ControlAct(cfg, s, t, s')
    ensures t in s.threads && s'.sl == s.sl && s'.heap == s.heap && s'.head == s.head
  {
  }

  lemma RefillsAreGuarded(cfg: Config, s: Sys, t: nat, s': Sys, i: nat)
    requires RefillTake(s, t, s') || ExpandGranted(s, t, s') || ExpandRefused(cfg, s, t, s')
             || RefillFull(cfg, s, t, s') || Install(s, t, s')
    ensures t in s.threads && s'.heap == s.heap && s'.head == s.head
    ensures At(s'.sl, InPool(i)) != At(s.sl, InPool(i)) ==> Holds(cfg, s.threads[t]) == Some(PoolLock(cfg, i))
  {
  }

  lemma SlotsAreGuarded(cfg: Config, s: Sys, t: nat, s': Sys, i: nat)
    requires SlotAct(cfg, s, t, s')
    ensures t in s.threads && s'.heap == s.heap && s'.head == s.head
    ensures At(s'.sl, InPool(i)) != At(s.sl, InPool(i)) ==> Holds(cfg, s.threads[t]) == Some(PoolLock(cfg, i))
  {
    if Dispatch(cfg, s, t, s') || PoolTake(cfg, s, t, s') {
    } else if CachePush(s, t, s') || PoolPush(cfg, s, t, s') || Detach(s, t, s') || SpliceBack(cfg, s, t, s') {
    } else {
      RefillsAreGuarded(cfg, s, t, s', i);
    }
  }

  // ---- Fragmentation ---------------------------------------------------------------------------

  /** On every run, free blocks never outnumber live general blocks and arenas together, and the
      free list has one entry for each. */
  lemma RunFragmentation(cfg: Config, run: seq<Sys>, k: nat)
    requires IsRun(cfg, run) && k < |run|
    ensures var h := run[k].heap;
            |h.list| == |HL.FreeSet(h)| <= |HL.LiveSet(h)| + |h.arenas|
  {
    RunInv(cfg, run, k);
    HL.FragmentationBound(run[k].heap);
  }

  /** On every run, whenever no general block is live, each arena is one free block over its whole
      carved part, tagged so in memory, and the free list has exactly one entry for each arena. */
  lemma RunNothingLive(cfg: Config, run: seq<Sys>, k: nat)
    requires IsRun(cfg, run) && k < |run| && forall a :: !IsLive(run[k].heap, a)
    ensures var h, words := run[k].heap, run[k].words;
            && |h.list| == |h.arenas|
            && (forall a | a in h.blocks :: h.blocks[a].arena < |h.arenas| && a == h.arenas[h.blocks[a].arena].base)
            && forall i | 0 <= i < |h.arenas| ::
                 var base := h.arenas[i].base;
                 && base in h.list && base in words && words[base] == h.arenas[i].used - 32 + 1
  {
    RunInv(cfg, run, k);
    var h, words := run[k].heap, run[k].words;
    forall a ensures a !in HL.LiveSet(h) {
      assert !IsLive(h, a);
    }
    HL.NoMembers(HL.LiveSet(h));
    HL.NothingLive(h);
    forall i | 0 <= i < |h.arenas|
      ensures h.arenas[i].base in h.list && h.arenas[i].base in words
      ensures words[h.arenas[i].base] == h.arenas[i].used - 32 + 1
    {
      assert GP.TagOk(words, h.blocks, h.arenas[i].base);
    }
  }
}
