/** Steps that move pooled slots keep the invariant. */
module ThreadSlotProof {
  import opened Machine
  import opened BlockTags
  import opened FreeLists
  import opened HeapModel
  import opened Chains
  import opened MemoryPool
  import opened SlotSystem
  import opened Threads
  import opened ThreadInvariant
  import opened ThreadProof
  import GP = GeneralPath
  import TC = ThreadCache
  import HL = HeapLaws

  ghost predicate IsAnySlot(sl: Slots, w: int) {
    exists i :: IsSlot(sl, i, w)
  }

  /** Nothing has been written but slot header words. */
  ghost predicate OnlyHeaders(s: Sys, words': Words) {
    && words'.Keys == s.words.Keys
    && forall w | w in s.words && !IsAnySlot(s.sl, w) :: words'[w] == s.words[w]
  }

  lemma SlotOutsideBlock(cfg: Config, s: Sys, i: nat, x: int, a: int)
    requires MemoryOk(cfg, s) && IsSlot(s.sl, i, x) && a in s.heap.blocks
    ensures x < a || Past(a, s.heap.blocks[a]) <= x
  {
    assert BlockOk(s.heap.arenas, s.heap.blocks, a);
    if a <= x < Past(a, s.heap.blocks[a]) {
      var k := s.heap.blocks[a].arena;
      assert SlotAside(s.heap, i, x, k);
      SlotWord(s.sl, s.words, s.os.mapped, i, x);
      InRegion(Region(s.heap.arenas[k].base, s.heap.arenas[k].size), x);
    }
  }

  /** Slot headers lie outside every live payload. */
  lemma HeaderOutsidePayload(cfg: Config, s: Sys, i: nat, x: int, p: int)
    requires MemoryOk(cfg, s) && IsSlot(s.sl, i, x) && PtrLive(s, p)
    ensures x < p || p + Cap(s, p) <= x
  {
    var a := p - HEADER;
    if a in s.sl.live {
      assert LiveOk(cfg.addr, s.sl, s.words, a);
      assert Clear(s.sl.live[a], a, i, x);
    } else {
      SlotOutsideBlock(cfg, s, i, x, a);
    }
  }

  /** Moving slots by writing their headers keeps memory in order and every live pointer that
      stays live. */
  lemma SlotWrites(cfg: Config, s: Sys, s': Sys)
    requires MemoryOk(cfg, s) && s'.heap == s.heap && s'.head == s.head && s'.os == s.os
    requires s'.sl.carved == s.sl.carved && OnlyHeaders(s, s'.words)
    requires PlacesOk(cfg.addr, s'.sl, s'.words, s'.os.mapped)
    ensures MemoryOk(cfg, s')
    ensures forall p {:trigger Kept(s, s', p)} | PtrLive(s, p) && (p - HEADER in s.sl.live ==>
              p - HEADER in s'.sl.live && s'.sl.live[p - HEADER] == s.sl.live[p - HEADER]) :: Kept(s, s', p)
  {
    forall w | w in s.words && GP.HeapWord(s.heap, w) ensures s'.words[w] == s.words[w] {
      HeapWordIsNoSlot(cfg, s, w);
    }
    GP.SpelledFrame(s.words, s'.words, s.head, s.heap);
    forall i, x, k | IsSlot(s'.sl, i, x) && 0 <= k < |s'.heap.arenas| ensures SlotAside(s'.heap, i, x, k) {
      assert IsSlot(s.sl, i, x) && SlotAside(s.heap, i, x, k);
    }
    forall p | PtrLive(s, p) && (p - HEADER in s.sl.live ==>
              p - HEADER in s'.sl.live && s'.sl.live[p - HEADER] == s.sl.live[p - HEADER])
      ensures Kept(s, s', p)
    {
      SlotKept(cfg, s, s', p);
    }
  }

  lemma HeapWordIsNoSlot(cfg: Config, s: Sys, w: int)
    requires MemoryOk(cfg, s) && GP.HeapWord(s.heap, w)
    ensures !IsAnySlot(s.sl, w)
  {
    var a := GP.HeapWordInBlock(s.heap, w);
    if i :| IsSlot(s.sl, i, w) {
      SlotOutsideBlock(cfg, s, i, w, a);
    }
  }

  lemma SlotKept(cfg: Config, s: Sys, s': Sys, p: int)
    requires MemoryOk(cfg, s) && s'.heap == s.heap && s'.sl.carved == s.sl.carved && OnlyHeaders(s, s'.words)
    requires PlacesOk(cfg.addr, s'.sl, s'.words, s.os.mapped)
    requires PtrLive(s, p) && (p - HEADER in s.sl.live ==>
               p - HEADER in s'.sl.live && s'.sl.live[p - HEADER] == s.sl.live[p - HEADER])
    ensures Kept(s, s', p)
  {
    forall w | p <= w < p + Cap(s, p) && w in s.words ensures w in s'.words && s'.words[w] == s.words[w] {
      if IsAnySlot(s.sl, w) {
        var i :| IsSlot(s.sl, i, w);
        HeaderOutsidePayload(cfg, s, i, w, p);
      }
    }
    var a := p - HEADER;
    if IsLive(s.heap, a) && a in s'.sl.live {
      assert LiveOk(cfg.addr, s'.sl, s'.words, a);
      SlotIsNoBlock(cfg, s, s'.sl.live[a], a);
    }
  }

  /** The slots in `gone` (as payload addresses) stop being live and those in `born` start. */
  ghost predicate LiveMoves(s: Sys, s': Sys, gone: set<int>, born: set<int>) {
    && (forall x | x in s.sl.live && x + HEADER !in gone :: x in s'.sl.live && s'.sl.live[x] == s.sl.live[x])
    && (forall x | x in s'.sl.live :: x in s.sl.live || x + HEADER in born)
    && (forall p | p in gone :: p - HEADER in s.sl.live && p - HEADER !in s'.sl.live)
    && (forall p | p in born :: p - HEADER in s'.sl.live && p - HEADER !in s.sl.live)
  }

  lemma SlotPointers(cfg: Config, s: Sys, s': Sys, gone: set<int>, born: set<int>)
    requires MemoryOk(cfg, s) && MemoryOk(cfg, s') && s'.heap == s.heap
    requires LiveMoves(s, s', gone, born)
    ensures forall p :: PtrLive(s', p) <==> (PtrLive(s, p) && p !in gone) || p in born
    ensures forall p | p in born :: !PtrLive(s, p)
  {
    forall p
      ensures PtrLive(s', p) <==> (PtrLive(s, p) && p !in gone) || p in born
      ensures p in born ==> !PtrLive(s, p)
    {
      assert p == (p - HEADER) + HEADER;
      if p in gone {
        assert LiveOk(cfg.addr, s.sl, s.words, p - HEADER);
        SlotIsNoBlock(cfg, s, s.sl.live[p - HEADER], p - HEADER);
      }
      if p in born {
        assert LiveOk(cfg.addr, s'.sl, s'.words, p - HEADER);
        SlotIsNoBlock(cfg, s', s'.sl.live[p - HEADER], p - HEADER);
      }
    }
  }

  /** What a slot step of t changes: registers and slots, nothing else. */
  ghost predicate SlotStepOf(cfg: Config, s: Sys, s': Sys, t: nat) {
    && t in s.threads && t in s'.threads
    && s'.threads == s.threads[t := s'.threads[t]] && s'.owner == s.owner
    && Holds(cfg, s'.threads[t]) == Holds(cfg, s.threads[t])
    && s'.heap == s.heap && s'.head == s.head && s'.os == s.os && s'.sl.carved == s.sl.carved && s'.held == s.held
    && OnlyHeaders(s, s'.words) && PlacesOk(cfg.addr, s'.sl, s'.words, s'.os.mapped)
    && forall u: nat, j: nat {:trigger SamePlaces(s, s', u, j)} | u != t :: SamePlaces(s, s', u, j)
  }

  lemma SlotQuiet(cfg: Config, s: Sys, s': Sys, t: nat, gone: set<int>, born: set<int>)
    requires MemoryOk(cfg, s) && SlotStepOf(cfg, s, s', t)
    requires LiveMoves(s, s', gone, born) && gone <= Regs(s.threads[t])
    ensures MemoryOk(cfg, s') && Quiet(s, s', t)
  {
    SlotWrites(cfg, s, s');
    SlotPointers(cfg, s, s', gone, born);
    forall p | Spared(s, s', t, p) ensures Kept(s, s', p) {
      assert p !in born && p !in gone && p == (p - HEADER) + HEADER;
    }
  }

  /** t's registers lose the pointers in `gone` and gain those in `born`. */
  ghost predicate Exchanged(s: Sys, s': Sys, t: nat, gone: set<int>, born: set<int>)
    requires t in s.threads && t in s'.threads
  {
    && gone <= Regs(s.threads[t]) && RegsDistinct(s'.threads[t])
    && Regs(s'.threads[t]) == Regs(s.threads[t]) - gone + born
  }

  /** A slot step of t, put together. */
  lemma SlotStep(cfg: Config, s: Sys, s': Sys, t: nat, gone: set<int>, born: set<int>)
    requires Inv(cfg, s) && SlotStepOf(cfg, s, s', t) && LiveMoves(s, s', gone, born)
    requires Exchanged(s, s', t, gone, born) && ThreadOk(s', t)
    ensures Inv(cfg, s') && Quiet(s, s', t)
  {
    SlotQuiet(cfg, s, s', t, gone, born);
    SlotPointers(cfg, s, s', gone, born);
    IsReady(cfg, s, t);
    SlotOwnership(s, s', t, gone, born);
    LocksUnchanged(cfg, s, s', t);
    Assemble(cfg, s, s', t);
  }

  lemma SlotOwnership(s: Sys, s': Sys, t: nat, gone: set<int>, born: set<int>)
    requires OwnershipOk(s) && t in s.threads && t in s'.threads && Regs(s.threads[t]) !! s.held
    requires s'.threads == s.threads[t := s'.threads[t]] && s'.held == s.held
    requires forall p :: PtrLive(s', p) <==> (PtrLive(s, p) && p !in gone) || p in born
    requires forall p | p in born :: !PtrLive(s, p)
    requires Exchanged(s, s', t, gone, born)
    ensures OwnershipOk(s')
  {
    assert Regs(s'.threads[t]) !! s'.held;
    OwnershipMoves(s, s', t, gone, born);
  }

  // ---- Allocation ------------------------------------------------------------------------------

  /** Writing one slot's header. */
  lemma HeaderWrite(s: Sys, i: nat, x: int, value: int)
    requires IsSlot(s.sl, i, x) && x in s.words
    ensures OnlyHeaders(s, s.words[x := value])
  {
    assert IsAnySlot(s.sl, x);
  }

  /** A thread that pops a slot and keeps it as its result. */
  lemma PopRegs(s: Sys, s': Sys, th: Thread, th': Thread, x: int)
    requires RegsOk(s, th) && th.result == 0 && IsMalloc(th.at)
    requires x in s'.sl.live && s'.sl.live[x] < CLASSES && th.n <= Payload(s'.sl.live[x])
    requires IsReturning(th'.at) && th' == th.(at := th'.at, i := th'.i, result := x + HEADER)
    requires th.source != 0 ==> Kept(s, s', th.source)
    ensures RegsOk(s', th')
  {
    if th.source != 0 {
      SourceKept(s, s', th.source, th.data);
    }
  }

  /** Only places of t and pools change. */
  lemma OwnPlacesOnly(s: Sys, s': Sys, t: nat, p: Place, q: Place)
    requires forall r | r != p && r != q :: At(s'.sl, r) == At(s.sl, r)
    requires p.InPool? || p.t == t
    requires q.InPool? || q.t == t
    ensures forall u: nat, j: nat {:trigger SamePlaces(s, s', u, j)} | u != t :: SamePlaces(s, s', u, j)
    ensures forall j: nat {:trigger SamePlaces(s, s', t, j)} | j != p.i && j != q.i :: SamePlaces(s, s', t, j)
  {
  }

  /** Popping from t's cache, or from a pool, into t's result. */
  ghost predicate Pops(cfg: Config, s: Sys, s': Sys, t: nat, p: Place, at': Label) {
    && t in s.threads && At(s.sl, p) != [] && (p.InPool? || p == InCache(t, p.i))
    && var th, x := s.threads[t], At(s.sl, p)[0];
    && IsMalloc(th.at) && th.result == 0 && p.i < CLASSES && th.n <= Payload(p.i) && |cfg.addr| == CLASSES
    && !HasFlight(th.at) && !IsRefill(th.at) && IsReturning(at')
    && s' == Put(s.(sl := PopSlots(s.sl, p), words := s.words[x := cfg.addr[p.i]]), t,
                 th.(at := at', i := p.i, result := x + HEADER))
    && Holds(cfg, s'.threads[t]) == Holds(cfg, th)
  }

  lemma PopMemory(cfg: Config, s: Sys, s': Sys, t: nat, p: Place, at': Label)
    requires MemoryOk(cfg, s) && Pops(cfg, s, s', t, p, at')
    ensures SlotStepOf(cfg, s, s', t) && LiveMoves(s, s', {}, {At(s.sl, p)[0] + HEADER})
    ensures !PtrLive(s, At(s.sl, p)[0] + HEADER) && 0 < At(s.sl, p)[0]
    ensures At(s.sl, p)[0] in s'.sl.live && s'.sl.live[At(s.sl, p)[0]] == p.i
    ensures forall j: nat {:trigger SamePlaces(s, s', t, j)} | j != p.i :: SamePlaces(s, s', t, j)
  {
    var x := At(s.sl, p)[0];
    PopKeeps(cfg.addr, s.sl, s.words, s.os.mapped, p);
    HeaderWrite(s, p.i, x, cfg.addr[p.i]);
    OwnPlacesOnly(s, s', t, p, p);
    SlotIsNoBlock(cfg, s, p.i, x);
    SlotWord(s.sl, s.words, s.os.mapped, p.i, x);
  }

  lemma PopCaches(cfg: Config, s: Sys, s': Sys, t: nat, p: Place, at': Label)
    requires Pops(cfg, s, s', t, p, at') && CachesOk(s, t, s.threads[t])
    requires forall j: nat {:trigger SamePlaces(s, s', t, j)} | j != p.i :: SamePlaces(s, s', t, j)
    ensures CachesOk(s', t, s'.threads[t])
  {
    var th, th' := s.threads[t], s'.threads[t];
    forall j ensures CacheOk(s', t, th', j) {
      assert CacheOk(s, t, th, j) && (j != p.i ==> SamePlaces(s, s', t, j));
    }
  }

  lemma PopThread(cfg: Config, s: Sys, s': Sys, t: nat, p: Place, at': Label)
    requires MemoryOk(cfg, s) && Ready(s, t) && Pops(cfg, s, s', t, p, at') && SlotStepOf(cfg, s, s', t)
    requires !PtrLive(s, At(s.sl, p)[0] + HEADER) && 0 < At(s.sl, p)[0]
    requires At(s.sl, p)[0] in s'.sl.live && s'.sl.live[At(s.sl, p)[0]] == p.i
    requires s'.sl.live == s.sl.live[At(s.sl, p)[0] := p.i] && At(s.sl, p)[0] !in s.sl.live
    ensures RegsOk(s', s'.threads[t]) && Exchanged(s, s', t, {}, {At(s.sl, p)[0] + HEADER})
  {
    var th := s.threads[t];
    if th.source != 0 {
      assert th.source in Regs(th);
      SlotKept(cfg, s, s', th.source);
    }
    PopRegs(s, s', th, s'.threads[t], At(s.sl, p)[0]);
  }

  lemma PopStep(cfg: Config, s: Sys, s': Sys, t: nat, p: Place, at': Label)
    requires Inv(cfg, s) && Pops(cfg, s, s', t, p, at')
    ensures Inv(cfg, s') && Quiet(s, s', t)
  {
    IsReady(cfg, s, t);
    PopMemory(cfg, s, s', t, p, at');
    PopThread(cfg, s, s', t, p, at');
    PopCaches(cfg, s, s', t, p, at');
    SlotStep(cfg, s, s', t, {}, {At(s.sl, p)[0] + HEADER});
  }

  /** A pooled request finds its own cache filled. */
  ghost predicate Hits(cfg: Config, s: Sys, t: nat) {
    && t in s.threads && cfg.stage == 3 && ClassFor(s.threads[t].n) < CLASSES
    && At(s.sl, InCache(t, ClassFor(s.threads[t].n))) != []
  }

  lemma DispatchHit(cfg: Config, s: Sys, t: nat, s': Sys)
    requires Ready(s, t) && Dispatch(cfg, s, t, s') && Hits(cfg, s, t) && |cfg.addr| == CLASSES
    ensures Pops(cfg, s, s', t, InCache(t, ClassFor(s.threads[t].n)), Returning)
  {
  }

  lemma DispatchMiss(cfg: Config, s: Sys, t: nat, th: Thread, th': Thread)
    requires RegsOk(s, th) && CachesOk(s, t, th) && RegsDistinct(th) && th.at.Calling?
    requires th' == if ClassFor(th.n) == CLASSES then th.(at := GeneralWait)
                    else th.(at := if cfg.stage != 3 then PoolWait else RefillWait, i := ClassFor(th.n))
    requires th'.at.RefillWait? ==> At(s.sl, InCache(t, th'.i)) == []
    ensures Steady(cfg, s, t, th, th')
  {
    PlainCaches(s, t, th, th');
  }

  lemma DispatchKeeps(cfg: Config, s: Sys, t: nat, s': Sys)
    requires Inv(cfg, s) && Dispatch(cfg, s, t, s')
    ensures Inv(cfg, s') && Quiet(s, s', t)
  {
    IsReady(cfg, s, t);
    if Hits(cfg, s, t) {
      DispatchHit(cfg, s, t, s');
      PopStep(cfg, s, s', t, InCache(t, ClassFor(s.threads[t].n)), Returning);
    } else {
      DispatchMiss(cfg, s, t, s.threads[t], s'.threads[t]);
      SteadyStep(cfg, s, s', t);
    }
  }

  lemma PoolTakePops(cfg: Config, s: Sys, t: nat, s': Sys)
    requires Ready(s, t) && PoolTake(cfg, s, t, s') && |cfg.addr| == CLASSES
    ensures Pops(cfg, s, s', t, InPool(s.threads[t].i), Leave(PoolLock(cfg, s.threads[t].i), Returning))
  {
  }

  lemma PoolTakeKeeps(cfg: Config, s: Sys, t: nat, s': Sys)
    requires Inv(cfg, s) && PoolTake(cfg, s, t, s')
    ensures Inv(cfg, s') && Quiet(s, s', t)
  {
    IsReady(cfg, s, t);
    PoolTakePops(cfg, s, t, s');
    PopStep(cfg, s, s', t, InPool(s.threads[t].i), Leave(PoolLock(cfg, s.threads[t].i), Returning));
  }
}
