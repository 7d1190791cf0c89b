/** What a call of the general path does to memory, as a relation between the states before and
    after it. */
module GeneralCalls {
  import opened Machine
  import opened BlockTags
  import opened HeapModel
  import opened Threads
  import opened ThreadInvariant
  import opened ThreadHeapProof
  import GP = GeneralPath
  import HL = HeapLaws

  /** What the in-memory general heap reports of a call that takes s to s'. */
  ghost predicate HeapCall(s: Sys, s': Sys, except: set<int>) {
    && s'.sl == s.sl && s'.words.Keys == s'.os.mapped
    && GP.Spelled(s'.words, s'.head, s'.heap) && GP.OnlyHeapWritten(s.heap, s.words, s'.words, except)
  }

  lemma HeapCallWrites(s: Sys, s': Sys, except: set<int>)
    requires HeapCall(s, s', except)
    ensures GeneralWrites(s, s'.heap, s'.words, s'.head, s'.os.mapped, except)
  {
  }

  /** my_malloc on the general path. */
  lemma MallocCall(cfg: Config, s: Sys, s': Sys, n: int, p: int)
    requires MemoryOk(cfg, s) && HeapCall(s, s', {}) && 4096 < n <= MAX_REQUEST
    requires forall k | 0 <= k < |s.heap.list| :: s.heap.list[k] in s.heap.blocks
    requires (s'.heap, s'.os, p) == Allocate(s.heap, s.os, cfg.arenaSize, AlignUp(n))
    ensures MemoryOk(cfg, s')
    ensures forall q | PtrLive(s, q) :: Kept(s, s', q)
    ensures forall q :: PtrLive(s', q) <==> PtrLive(s, q) || q in NonNull(p)
    ensures p != 0 ==> !PtrLive(s, p) && n <= Cap(s', p)
    ensures p == 0 <==> HL.NoMemory(s.heap, s.os, cfg.arenaSize, AlignUp(n))
    ensures p == 0 ==> s'.heap == s.heap
  {
    var size := AlignUp(n);
    AlignUpExact(n);
    HL.AllocateMeans(s.heap, s.os, cfg.arenaSize, size);
    AllocateArenas(s, cfg.arenaSize, size);
    var s1 := s.(heap := s'.heap, os := s'.os);
    assert ArenasGrow(s, s1);
    HeapCallWrites(s, s', {});
    MallocOutcome(cfg, s, s', n, p);
  }

  lemma MallocOutcome(cfg: Config, s: Sys, s': Sys, n: int, p: int)
    requires MemoryOk(cfg, s) && GeneralStepOf(s, s', {}) && 0 <= n <= MAX_REQUEST
    requires if p == 0 then s'.heap == s.heap else HL.Handed(s.heap, s'.heap, p, AlignUp(n))
    ensures MemoryOk(cfg, s')
    ensures forall q | PtrLive(s, q) :: Kept(s, s', q)
    ensures forall q :: PtrLive(s', q) <==> PtrLive(s, q) || q in NonNull(p)
    ensures p != 0 ==> !PtrLive(s, p) && n <= Cap(s', p)
  {
    AlignUpExact(n);
    TakeLive(s, s', p, AlignUp(n));
    GeneralMemory(cfg, s, s', {});
    GeneralPointers(cfg, s, s', {}, NonNull(p));
    forall q | PtrLive(s, q) ensures Kept(s, s', q) {
      GeneralKept(cfg, s, s', {}, q);
    }
    if p != 0 {
      assert p in NonNull(p);
      BlockCap(cfg, s', p);
    }
  }

  /** my_free on the general path. */
  lemma FreeCall(cfg: Config, s: Sys, s': Sys, p: int)
    requires MemoryOk(cfg, s) && HeapCall(s, s', {p - HEADER}) && IsLive(s.heap, p - HEADER)
    requires s.heap.blocks[p - HEADER].arena < |s.heap.arenas|
    requires s'.heap == Release(s.heap, p - HEADER) && s'.os == s.os
    ensures MemoryOk(cfg, s')
    ensures forall q | PtrLive(s, q) && q != p :: Kept(s, s', q)
    ensures forall q :: PtrLive(s', q) <==> PtrLive(s, q) && q != p
  {
    var a := p - HEADER;
    HL.ReleaseMeans(s.heap, a);
    HeapCallWrites(s, s', {a});
    forall b ensures IsLive(s'.heap, b) <==> IsLive(s.heap, b) && b + HEADER !in {p} {
    }
    assert GeneralStepOf(s, s', {a});
    FreeOutcome(cfg, s, s', p);
  }

  lemma FreeOutcome(cfg: Config, s: Sys, s': Sys, p: int)
    requires MemoryOk(cfg, s) && GeneralStepOf(s, s', {p - HEADER}) && IsLive(s.heap, p - HEADER)
    requires forall b :: IsLive(s'.heap, b) <==> IsLive(s.heap, b) && b + HEADER !in {p}
    requires forall b | IsLive(s.heap, b) && b != p - HEADER :: HL.StillLive(s.heap, s'.heap, b)
    ensures MemoryOk(cfg, s')
    ensures forall q | PtrLive(s, q) && q != p :: Kept(s, s', q)
    ensures forall q :: PtrLive(s', q) <==> PtrLive(s, q) && q != p
  {
    GeneralMemory(cfg, s, s', {p - HEADER});
    GeneralPointers(cfg, s, s', {p}, {});
    forall q | PtrLive(s, q) && q != p ensures Kept(s, s', q) {
      assert q - HEADER !in s.sl.live ==> IsLive(s.heap, q - HEADER);
      GeneralKept(cfg, s, s', {p - HEADER}, q);
    }
  }

  /** Growing in place, the locked half of my_realloc. */
  lemma GrowCall(cfg: Config, s: Sys, s': Sys, p: int, n: int)
    requires MemoryOk(cfg, s) && HeapCall(s, s', {}) && IsLive(s.heap, p - HEADER) && 0 <= n <= MAX_REQUEST
    requires s.heap.blocks[p - HEADER].arena < |s.heap.arenas| && s.heap.blocks[p - HEADER].size < AlignUp(n)
    requires CanGrow(s.heap, p - HEADER, AlignUp(n)) && s'.heap == Grow(s.heap, p - HEADER, AlignUp(n)) && s'.os == s.os
    ensures MemoryOk(cfg, s')
    ensures forall q | PtrLive(s, q) && q != p :: Kept(s, s', q)
    ensures forall q :: PtrLive(s', q) <==> PtrLive(s, q)
    ensures n <= Cap(s', p) && Cap(s, p) <= Cap(s', p)
    ensures forall w | p <= w < p + Cap(s, p) && w in s.words :: w in s'.words && s'.words[w] == s.words[w]
  {
    var a := p - HEADER;
    AlignUpExact(n);
    HeapCallWrites(s, s', {});
    GrowStepOf(cfg, s, a, AlignUp(n), s');
    GrowOutcome(cfg, s, s', p);
    BlockCap(cfg, s, p);
    BlockCap(cfg, s', p);
    forall w | p <= w < p + Cap(s, p) && w in s.words ensures w in s'.words && s'.words[w] == s.words[w] {
      assert GP.InPayload(s.heap.blocks, a, w);
    }
  }

  lemma GrowOutcome(cfg: Config, s: Sys, s': Sys, p: int)
    requires MemoryOk(cfg, s) && GeneralStepOf(s, s', {}) && IsLive(s.heap, p - HEADER)
    requires forall b :: IsLive(s'.heap, b) <==> IsLive(s.heap, b)
    requires forall b | IsLive(s.heap, b) && b != p - HEADER :: HL.StillLive(s.heap, s'.heap, b)
    ensures MemoryOk(cfg, s')
    ensures forall q | PtrLive(s, q) && q != p :: Kept(s, s', q)
    ensures forall q :: PtrLive(s', q) <==> PtrLive(s, q)
  {
    GeneralMemory(cfg, s, s', {});
    GeneralPointers(cfg, s, s', {}, {});
    forall q | PtrLive(s, q) && q != p ensures Kept(s, s', q) {
      GeneralKept(cfg, s, s', {}, q);
    }
  }
}
