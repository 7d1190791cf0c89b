/** The invariant of ThreadInvariant is inductive: every step keeps it and is quiet. */
module ThreadProof {
  import opened Machine
  import opened BlockTags
  import opened FreeLists
  import opened HeapModel
  import opened Chains
  import opened MemoryPool
  import opened SlotSystem
  import opened Threads
  import opened ThreadInvariant
  import GP = GeneralPath
  import TC = ThreadCache
  import HL = HeapLaws

  // ---- Assembling a step -------------------------------------------------------------------

  /** What is left to show of a step of t, given that it is quiet. */
  lemma Assemble(cfg: Config, s: Sys, s': Sys, t: nat)
    requires Inv(cfg, s) && Quiet(s, s', t) && t in s.threads
    requires MemoryOk(cfg, s') && LocksOk(cfg, s') && OwnershipOk(s') && ThreadOk(s', t)
    ensures Inv(cfg, s')
  {
    forall u | u in s'.threads ensures ThreadOk(s', u) {
      if u != t {
        assert ThreadOk(s, u);
        OthersKeep(s, s', t, u);
      }
    }
    forall u: nat, j: nat | u !in s'.threads ensures OwnPlacesEmpty(s', u, j) {
      assert OwnPlacesEmpty(s, u, j) && SamePlaces(s, s', u, j);
    }
  }

  /** Pointers move between t's registers and the clients; those in `gone` stop being live and
      those in `born` start. */
  lemma OwnershipMoves(s: Sys, s': Sys, t: nat, gone: set<int>, born: set<int>)
    requires OwnershipOk(s) && t in s.threads && t in s'.threads
    requires s'.threads == s.threads[t := s'.threads[t]]
    requires forall p :: PtrLive(s', p) <==> (PtrLive(s, p) && p !in gone) || p in born
    requires forall p | p in born :: !PtrLive(s, p)
    requires gone <= Regs(s.threads[t])
    requires RegsDistinct(s'.threads[t]) && Regs(s'.threads[t]) !! s'.held
    requires Regs(s'.threads[t]) + s'.held == (Regs(s.threads[t]) + s.held - gone) + born
    ensures OwnershipOk(s')
  {
    var before, after := Regs(s.threads[t]), Regs(s'.threads[t]);
    forall p | p in after || p in s'.held
      ensures PtrLive(s', p)
      ensures p in born || Owns(s, t, p) || p in s.held
    {
      assert p in after + s'.held;
      assert p in before ==> Owns(s, t, p);
    }
    forall u, p | Owns(s', u, p)
      ensures PtrLive(s', p) && p !in s'.held
      ensures u != t ==> p !in after
    {
      if u != t {
        assert Owns(s, u, p);
        assert p in gone ==> Owns(s, t, p);
      }
    }
    forall u | u in s'.threads ensures RegsDistinct(s'.threads[u]) {
      assert u in s.threads;
    }
    forall u, v, p | Owns(s', u, p) && Owns(s', v, p) ensures u == v {
      assert u != t ==> Owns(s, u, p);
      assert v != t ==> Owns(s, v, p);
    }
    forall p | PtrLive(s', p) ensures p in s'.held || exists u :: Owns(s', u, p) {
      if p in born || p in s.held || Owns(s, t, p) {
        assert p in after + s'.held;
        assert p in after ==> Owns(s', t, p);
      } else {
        var u :| Owns(s, u, p);
        assert Owns(s', u, p);
      }
    }
  }

  lemma LocksUnchanged(cfg: Config, s: Sys, s': Sys, t: nat)
    requires LocksOk(cfg, s) && t in s.threads && t in s'.threads
    requires s'.threads == s.threads[t := s'.threads[t]] && s'.owner == s.owner
    requires Holds(cfg, s'.threads[t]) == Holds(cfg, s.threads[t])
    ensures LocksOk(cfg, s')
  {
  }

  /** Only t's registers, the locks, the clients' pointers and what the system will answer
      change. */
  ghost predicate ControlOnly(s: Sys, s': Sys, t: nat) {
    && t in s.threads && t in s'.threads && s'.threads == s.threads[t := s'.threads[t]]
    && s'.words == s.words && s'.sl == s.sl && s'.heap == s.heap && s'.head == s.head
    && s'.os.mapped == s.os.mapped && s'.os.largest == s.os.largest
  }

  /** The pointers t owned or the clients held are still owned by t or held, once each. */
  ghost predicate Passed(s: Sys, s': Sys, t: nat)
    requires t in s.threads && t in s'.threads
  {
    var th, th' := s.threads[t], s'.threads[t];
    && RegsDistinct(th') && Regs(th') !! s'.held
    && Regs(th') + s'.held == Regs(th) + s.held
  }

  /** A control step of t after which t's registers and caches still make sense. */
  ghost predicate ControlEffect(s: Sys, s': Sys, t: nat) {
    && ControlOnly(s, s', t) && Passed(s, s', t)
    && RegsOk(s, s'.threads[t]) && CachesOk(s, t, s'.threads[t])
  }

  lemma ControlStep(cfg: Config, s: Sys, s': Sys, t: nat)
    requires Inv(cfg, s) && ControlEffect(s, s', t) && LocksOk(cfg, s')
    ensures Inv(cfg, s') && Quiet(s, s', t)
  {
    ControlMemory(cfg, s, s', t);
    ControlOwnership(s, s', t);
    SameState(s, s', t);
    ControlQuiet(s, s', t);
    Assemble(cfg, s, s', t);
  }

  lemma ControlMemory(cfg: Config, s: Sys, s': Sys, t: nat)
    requires MemoryOk(cfg, s) && ControlOnly(s, s', t)
    ensures MemoryOk(cfg, s')
  {
    forall i, x, k | IsSlot(s'.sl, i, x) && 0 <= k < |s'.heap.arenas| ensures SlotAside(s'.heap, i, x, k) {
      assert SlotAside(s.heap, i, x, k);
    }
  }

  lemma ControlOwnership(s: Sys, s': Sys, t: nat)
    requires OwnershipOk(s) && ControlOnly(s, s', t) && Passed(s, s', t)
    ensures OwnershipOk(s')
  {
    OwnershipMoves(s, s', t, {}, {});
  }

  lemma SameState(s: Sys, s': Sys, t: nat)
    requires ControlEffect(s, s', t)
    ensures ThreadOk(s', t)
  {
    forall j ensures CacheOk(s', t, s'.threads[t], j) {
      assert CacheOk(s, t, s'.threads[t], j);
    }
  }

  lemma ControlQuiet(s: Sys, s': Sys, t: nat)
    requires ControlOnly(s, s', t)
    ensures Quiet(s, s', t)
  {
    forall p | Spared(s, s', t, p) ensures Kept(s, s', p) {
    }
  }

  /** A control step that does not change what t holds locked. */
  lemma PlainStep(cfg: Config, s: Sys, s': Sys, t: nat)
    requires Inv(cfg, s) && ControlEffect(s, s', t)
    requires s'.owner == s.owner && Holds(cfg, s'.threads[t]) == Holds(cfg, s.threads[t])
    ensures Inv(cfg, s') && Quiet(s, s', t)
  {
    LocksUnchanged(cfg, s, s', t);
    ControlStep(cfg, s, s', t);
  }

  /** A thread that had no batch and was not detaching keeps its caches in order by not
      claiming otherwise. */
  lemma PlainCaches(s: Sys, t: nat, th: Thread, th': Thread)
    requires CachesOk(s, t, th)
    requires !HasFlight(th.at) && !th.at.Detaching? && !th'.at.Detaching? && !HasFlight(th'.at)
    requires IsRefill(th'.at) ==> At(s.sl, InCache(t, th'.i)) == []
    ensures CachesOk(s, t, th')
  {
    forall j ensures CacheOk(s, t, th', j) {
      assert CacheOk(s, t, th, j);
    }
  }

  /** What t has before a step: sound registers and caches, and pointers of its own. */
  ghost predicate Ready(s: Sys, t: nat) {
    && t in s.threads && ThreadOk(s, t)
    && RegsDistinct(s.threads[t]) && Regs(s.threads[t]) !! s.held
    && (forall p | p in Regs(s.threads[t]) :: PtrLive(s, p))
  }

  lemma IsReady(cfg: Config, s: Sys, t: nat)
    requires Inv(cfg, s) && t in s.threads
    ensures Ready(s, t)
  {
    assert ThreadOk(s, t);
    OwnedApart(s, t);
  }

  lemma OwnedApart(s: Sys, t: nat)
    requires OwnershipOk(s) && t in s.threads
    ensures RegsDistinct(s.threads[t]) && Regs(s.threads[t]) !! s.held
    ensures forall p | p in Regs(s.threads[t]) :: PtrLive(s, p)
  {
    forall p | p in Regs(s.threads[t]) ensures p !in s.held && PtrLive(s, p) {
      assert Owns(s, t, p);
    }
  }

  // ---- Locks ---------------------------------------------------------------------------------

  lemma EnteredHolds(cfg: Config, th: Thread)
    requires WaitsFor(cfg, th).Some?
    ensures Holds(cfg, th) == None && Holds(cfg, th.(at := Entered(th.at))) == WaitsFor(cfg, th)
  {
  }

  lemma AcquireLocks(cfg: Config, s: Sys, t: nat, s': Sys)
    requires LocksOk(cfg, s) && Acquire(cfg, s, t, s')
    ensures LocksOk(cfg, s')
    ensures Holds(cfg, s.threads[t]) == None && Holds(cfg, s'.threads[t]) == WaitsFor(cfg, s.threads[t])
  {
    EnteredHolds(cfg, s.threads[t]);
  }

  lemma AcquireThread(cfg: Config, s: Sys, t: nat, th: Thread)
    requires RegsOk(s, th) && CachesOk(s, t, th) && WaitsFor(cfg, th).Some?
    ensures RegsOk(s, th.(at := Entered(th.at))) && CachesOk(s, t, th.(at := Entered(th.at)))
  {
    var th' := th.(at := Entered(th.at));
    forall j ensures CacheOk(s, t, th', j) {
      assert CacheOk(s, t, th, j);
    }
  }

  lemma AcquireEffect(cfg: Config, s: Sys, t: nat, s': Sys)
    requires Ready(s, t) && Acquire(cfg, s, t, s')
    ensures ControlEffect(s, s', t)
  {
    AcquireThread(cfg, s, t, s.threads[t]);
  }

  lemma AcquireKeeps(cfg: Config, s: Sys, t: nat, s': Sys)
    requires Inv(cfg, s) && Acquire(cfg, s, t, s')
    ensures Inv(cfg, s') && Quiet(s, s', t)
  {
    IsReady(cfg, s, t);
    AcquireLocks(cfg, s, t, s');
    AcquireEffect(cfg, s, t, s');
    ControlStep(cfg, s, s', t);
  }

  lemma UnlockLocks(cfg: Config, s: Sys, t: nat, s': Sys)
    requires LocksOk(cfg, s) && Unlock(s, t, s') && Sensible(s.threads[t].at)
    ensures LocksOk(cfg, s') && Holds(cfg, s'.threads[t]) == None
  {
    var th := s.threads[t];
    assert th.at.next.Calling? || th.at.next.Installing? || th.at.next.Returning? || th.at.next.Freed?;
    assert Holds(cfg, th) == Some(th.at.m) && s.owner[th.at.m] == t;
  }

  lemma UnlockThread(s: Sys, t: nat, th: Thread)
    requires RegsOk(s, th) && CachesOk(s, t, th) && th.at.Leave?
    ensures RegsOk(s, th.(at := th.at.next)) && CachesOk(s, t, th.(at := th.at.next))
  {
    var th' := th.(at := th.at.next);
    assert th'.at.Calling? || th'.at.Installing? || th'.at.Returning? || th'.at.Freed?;
    forall j ensures CacheOk(s, t, th', j) {
      assert CacheOk(s, t, th, j);
    }
  }

  lemma UnlockEffect(s: Sys, t: nat, s': Sys)
    requires Ready(s, t) && Unlock(s, t, s')
    ensures ControlEffect(s, s', t)
  {
    UnlockThread(s, t, s.threads[t]);
  }

  lemma UnlockKeeps(cfg: Config, s: Sys, t: nat, s': Sys)
    requires Inv(cfg, s) && Unlock(s, t, s')
    ensures Inv(cfg, s') && Quiet(s, s', t)
  {
    IsReady(cfg, s, t);
    UnlockLocks(cfg, s, t, s');
    UnlockEffect(s, t, s');
    ControlStep(cfg, s, s', t);
  }

  // ---- Beginnings and ends of calls ------------------------------------------------------------

  lemma StartMallocEffect(cfg: Config, s: Sys, t: nat, n: int, s': Sys)
    requires Ready(s, t) && StartMalloc(s, t, n, s')
    ensures ControlEffect(s, s', t) && Holds(cfg, s'.threads[t]) == Holds(cfg, s.threads[t])
  {
    PlainCaches(s, t, s.threads[t], s'.threads[t]);
  }

  lemma StartMallocKeeps(cfg: Config, s: Sys, t: nat, n: int, s': Sys)
    requires Inv(cfg, s) && StartMalloc(s, t, n, s')
    ensures Inv(cfg, s') && Quiet(s, s', t)
  {
    IsReady(cfg, s, t);
    StartMallocEffect(cfg, s, t, n, s');
    PlainStep(cfg, s, s', t);
  }

  lemma ReturnRegs(s: Sys, t: nat, th: Thread)
    requires RegsOk(s, th) && CachesOk(s, t, th) && th.at.Returning?
    ensures th.source != 0 && th.result != 0 ==> RegsOk(s, th.(at := Copying)) && CachesOk(s, t, th.(at := Copying))
    ensures RegsOk(s, IDLE_THREAD) && CachesOk(s, t, IDLE_THREAD)
  {
    PlainCaches(s, t, th, th.(at := Copying));
    PlainCaches(s, t, th, IDLE_THREAD);
  }

  lemma ReturnEffect(cfg: Config, s: Sys, t: nat, s': Sys)
    requires Ready(s, t) && Return(s, t, s')
    ensures ControlEffect(s, s', t) && Holds(cfg, s'.threads[t]) == Holds(cfg, s.threads[t])
  {
    ReturnRegs(s, t, s.threads[t]);
  }

  lemma ReturnKeeps(cfg: Config, s: Sys, t: nat, s': Sys)
    requires Inv(cfg, s) && Return(s, t, s')
    ensures Inv(cfg, s') && Quiet(s, s', t)
  {
    IsReady(cfg, s, t);
    ReturnEffect(cfg, s, t, s');
    PlainStep(cfg, s, s', t);
  }

  lemma StartFreeEffect(cfg: Config, s: Sys, t: nat, p: int, s': Sys)
    requires Ready(s, t) && StartFree(s, t, p, s') && p != 0
    ensures ControlEffect(s, s', t) && Holds(cfg, s'.threads[t]) == Holds(cfg, s.threads[t])
  {
    PlainCaches(s, t, s.threads[t], s'.threads[t]);
  }

  lemma StartFreeKeeps(cfg: Config, s: Sys, t: nat, p: int, s': Sys)
    requires Inv(cfg, s) && StartFree(s, t, p, s')
    ensures Inv(cfg, s') && Quiet(s, s', t)
  {
    IsReady(cfg, s, t);
    LiveNonNull(cfg, s, p);
    StartFreeEffect(cfg, s, t, p, s');
    PlainStep(cfg, s, s', t);
  }

  lemma FreeReturnEffect(cfg: Config, s: Sys, t: nat, s': Sys)
    requires Ready(s, t) && FreeReturn(s, t, s')
    ensures ControlEffect(s, s', t) && Holds(cfg, s'.threads[t]) == Holds(cfg, s.threads[t])
  {
    PlainCaches(s, t, s.threads[t], s'.threads[t]);
  }

  lemma FreeReturnKeeps(cfg: Config, s: Sys, t: nat, s': Sys)
    requires Inv(cfg, s) && FreeReturn(s, t, s')
    ensures Inv(cfg, s') && Quiet(s, s', t)
  {
    IsReady(cfg, s, t);
    FreeReturnEffect(cfg, s, t, s');
    PlainStep(cfg, s, s', t);
  }

  /** A live pointer is not null, is aligned, and its payload is mapped. */
  lemma LiveNonNull(cfg: Config, s: Sys, p: int)
    requires MemoryOk(cfg, s) && PtrLive(s, p)
    ensures p > HEADER && p % ALIGNMENT == 0 && 0 < Cap(s, p)
    ensures p - HEADER in s.words
    ensures forall k | k in Offsets(Cap(s, p)) :: p + k in s.words
  {
    var a := p - HEADER;
    if a in s.sl.live {
      var i := s.sl.live[a];
      assert LiveOk(cfg.addr, s.sl, s.words, a) && Mapped(s.os.mapped, i, a);
      SlotWord(s.sl, s.words, s.os.mapped, i, a);
      forall k | k in Offsets(Cap(s, p)) ensures p + k in s.words {
        WordInside(Region(a, Total(i)), p, k);
      }
    } else {
      assert BlockOk(s.heap.arenas, s.heap.blocks, a) && BlockAligned(s.heap.blocks, a);
      assert GP.TagOk(s.words, s.heap.blocks, a);
      var arena := s.heap.arenas[s.heap.blocks[a].arena];
      assert WordsOf(Region(arena.base, arena.size)) <= s.os.mapped;
      forall k | k in Offsets(Cap(s, p)) ensures p + k in s.words {
        WordInside(Region(arena.base, arena.size), p, k);
      }
    }
  }

  lemma WordInside(r: Region, p: int, k: int)
    requires p % ALIGNMENT == 0 && k % 8 == 0 && r.base <= p + k < r.base + r.size
    ensures p + k in WordsOf(r)
  {
    AlignedIsWord(p);
    EightsAdd(p, k);
  }

  lemma StartReallocRegs(cfg: Config, s: Sys, p: int, n: int)
    requires MemoryOk(cfg, s) && PtrLive(s, p) && 0 <= n <= MAX_REQUEST
    ensures RegsOk(s, IDLE_THREAD.(at := ReallocTag, n := n, source := p, data := Snapshot(s.words, p, Cap(s, p))))
  {
    LiveNonNull(cfg, s, p);
    var data := Snapshot(s.words, p, Cap(s, p));
    assert data.Keys == Offsets(Cap(s, p));
  }

  lemma StartReallocEffect(cfg: Config, s: Sys, t: nat, p: int, n: int, s': Sys)
    requires MemoryOk(cfg, s) && PtrLive(s, p) && Ready(s, t) && StartRealloc(s, t, p, n, s')
    ensures ControlEffect(s, s', t) && Holds(cfg, s'.threads[t]) == Holds(cfg, s.threads[t])
  {
    LiveNonNull(cfg, s, p);
    StartReallocRegs(cfg, s, p, n);
    PlainCaches(s, t, s.threads[t], s'.threads[t]);
  }

  lemma StartReallocKeeps(cfg: Config, s: Sys, t: nat, p: int, n: int, s': Sys)
    requires Inv(cfg, s) && StartRealloc(s, t, p, n, s')
    ensures Inv(cfg, s') && Quiet(s, s', t)
  {
    IsReady(cfg, s, t);
    StartReallocEffect(cfg, s, t, p, n, s');
    PlainStep(cfg, s, s', t);
  }

  // ---- Routing -------------------------------------------------------------------------------

  /** The word before a live payload names exactly the pool it belongs to, or no pool. */
  lemma TagRoutes(cfg: Config, s: Sys, p: int)
    requires MemoryOk(cfg, s) && PtrLive(s, p)
    ensures p - HEADER in s.words
    ensures PoolOf(cfg, s.words[p - HEADER]) ==
            if p - HEADER in s.sl.live then Some(s.sl.live[p - HEADER]) else None
    ensures p - HEADER in s.sl.live ==> s.sl.live[p - HEADER] < CLASSES && !IsLive(s.heap, p - HEADER)
  {
    var a := p - HEADER;
    LiveNonNull(cfg, s, p);
    if a in s.sl.live {
      assert LiveOk(cfg.addr, s.sl, s.words, a);
      SlotIsNoBlock(cfg, s, s.sl.live[a], a);
    } else {
      assert GP.TagOk(s.words, s.heap.blocks, a) && BlockOk(s.heap.arenas, s.heap.blocks, a);
      var arena := s.heap.blocks[a].arena;
      assert s.heap.arenas[arena].size <= s.os.largest;
    }
  }

  lemma SlotIsNoBlock(cfg: Config, s: Sys, i: nat, x: int)
    requires MemoryOk(cfg, s) && IsSlot(s.sl, i, x)
    ensures x !in s.heap.blocks
  {
    if x in s.heap.blocks {
      assert BlockOk(s.heap.arenas, s.heap.blocks, x);
      var k := s.heap.blocks[x].arena;
      assert SlotAside(s.heap, i, x, k);
      SlotWord(s.sl, s.words, s.os.mapped, i, x);
      InRegion(Region(s.heap.arenas[k].base, s.heap.arenas[k].size), x);
    }
  }

  /** th' keeps what th held locked and its pointers, and makes sense. */
  ghost predicate Steady(cfg: Config, s: Sys, t: nat, th: Thread, th': Thread) {
    && RegsOk(s, th') && CachesOk(s, t, th') && Holds(cfg, th') == Holds(cfg, th)
    && Regs(th') == Regs(th) && RegsDistinct(th')
  }

  lemma SteadyStep(cfg: Config, s: Sys, s': Sys, t: nat)
    requires Inv(cfg, s) && ControlOnly(s, s', t) && s'.owner == s.owner && s'.held == s.held
    requires Steady(cfg, s, t, s.threads[t], s'.threads[t])
    ensures Inv(cfg, s') && Quiet(s, s', t)
  {
    IsReady(cfg, s, t);
    PlainStep(cfg, s, s', t);
  }

  lemma ReadTagThread(cfg: Config, s: Sys, t: nat, th: Thread, th': Thread)
    requires RegsOk(s, th) && CachesOk(s, t, th) && RegsDistinct(th) && th.at.FreeTag?
    requires th'.at.CacheFree? || th'.at.PoolFreeWait? ==>
               && th.ptr - HEADER in s.sl.live && s.sl.live[th.ptr - HEADER] < CLASSES
               && th' == th.(at := th'.at, i := s.sl.live[th.ptr - HEADER])
    requires !(th'.at.CacheFree? || th'.at.PoolFreeWait?) ==>
               IsLive(s.heap, th.ptr - HEADER) && th' == th.(at := GeneralFreeWait)
    ensures Steady(cfg, s, t, th, th')
  {
    PlainCaches(s, t, th, th');
  }

  lemma ReadTagKeeps(cfg: Config, s: Sys, t: nat, s': Sys)
    requires Inv(cfg, s) && ReadTag(cfg, s, t, s')
    ensures Inv(cfg, s') && Quiet(s, s', t)
  {
    IsReady(cfg, s, t);
    var th := s.threads[t];
    assert th.ptr in Regs(th);
    TagRoutes(cfg, s, th.ptr);
    ReadTagThread(cfg, s, t, th, s'.threads[t]);
    SteadyStep(cfg, s, s', t);
  }

  lemma ReallocRouteThread(cfg: Config, s: Sys, t: nat, th: Thread, th': Thread)
    requires RegsOk(s, th) && CachesOk(s, t, th) && RegsDistinct(th) && th.at.ReallocTag?
    requires th'.at.ResizeWait? ==> IsLive(s.heap, th.source - HEADER) && th' == th.(at := ResizeWait)
    requires !th'.at.ResizeWait? ==>
               && th.source - HEADER in s.sl.live && s.sl.live[th.source - HEADER] < CLASSES
               && var i := s.sl.live[th.source - HEADER];
               th' == if th.n <= Payload(i) then th.(at := Returning, i := i, result := th.source, source := 0)
                      else th.(at := Calling, i := i, size := Payload(i))
    ensures Steady(cfg, s, t, th, th')
  {
    PlainCaches(s, t, th, th');
  }

  lemma RouteTaken(cfg: Config, s: Sys, t: nat, s': Sys)
    requires ReallocRoute(cfg, s, t, s')
    requires var x := s.threads[t].source - HEADER;
             x in s.words && PoolOf(cfg, s.words[x]) == if x in s.sl.live then Some(s.sl.live[x]) else None
    ensures ControlOnly(s, s', t) && s'.owner == s.owner && s'.held == s.held
    ensures var th, th' := s.threads[t], s'.threads[t];
            if th.source - HEADER !in s.sl.live then th' == th.(at := ResizeWait)
            else
              var i := s.sl.live[th.source - HEADER];
              th' == if th.n <= Payload(i) then th.(at := Returning, i := i, result := th.source, source := 0)
                     else th.(at := Calling, i := i, size := Payload(i))
  {
  }

  lemma RouteEffect(cfg: Config, s: Sys, t: nat, s': Sys)
    requires MemoryOk(cfg, s) && Ready(s, t) && ReallocRoute(cfg, s, t, s')
    ensures ControlOnly(s, s', t) && s'.owner == s.owner && s'.held == s.held
    ensures Steady(cfg, s, t, s.threads[t], s'.threads[t])
  {
    var th := s.threads[t];
    assert th.source in Regs(th);
    TagRoutes(cfg, s, th.source);
    RouteTaken(cfg, s, t, s');
    ReallocRouteThread(cfg, s, t, th, s'.threads[t]);
  }

  lemma ReallocRouteKeeps(cfg: Config, s: Sys, t: nat, s': Sys)
    requires Inv(cfg, s) && ReallocRoute(cfg, s, t, s')
    ensures Inv(cfg, s') && Quiet(s, s', t)
  {
    IsReady(cfg, s, t);
    RouteEffect(cfg, s, t, s');
    SteadyStep(cfg, s, s', t);
  }
}
