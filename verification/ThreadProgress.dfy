/** No reachable state is deadlocked: a thread inside a call can take a step, or waits for a
    mutex whose owner can. */
module ThreadProgress {
  import opened Machine
  import opened BlockTags
  import opened FreeLists
  import opened HeapModel
  import opened Chains
  import opened MemoryPool
  import opened SlotSystem
  import opened Threads
  import opened ThreadInvariant
  import opened ThreadProof
  import opened ThreadSlotProof
  import opened ThreadSlotSteps
  import opened ThreadHeapProof
  import opened ThreadLaws
  import GP = GeneralPath
  import TC = ThreadCache
  import HL = HeapLaws

  // ---- The general path always has a way to spell out its result -------------------------------------

  /** The value of a link word of the list. */
  ghost function LinkValue(list: seq<int>, w: int): int {
    if exists k :: 0 <= k < |list| && list[k] == w - HEADER then
      var k :| 0 <= k < |list| && list[k] == w - HEADER;
      LinkTo(list, k + 1)
    else if exists k :: 0 <= k < |list| && list[k] == w - HEADER - 8 then
      var k :| 0 <= k < |list| && list[k] == w - HEADER - 8;
      LinkTo(list, k - 1)
    else 0
  }

  /** Memory after writing the headers, footers and links of h, and nothing else. */
  ghost function Respell(words: Words, mapped: set<int>, h: Heap): Words {
    map w | w in mapped :: RespellWord(words, h, w)
  }

  ghost function RespellWord(words: Words, h: Heap, w: int): int {
    if w in h.blocks then Tag(h.blocks[w].size, h.blocks[w].free)
    else if GP.IsFooter(h.blocks, w) then
      var a :| a in h.blocks && FooterOf(a, h.blocks[a].size) == w;
      h.blocks[a].size
    else if IsLinkWord(h.list, w) then LinkValue(h.list, w)
    else if w in words then words[w]
    else 0
  }

  lemma FooterSpelled(words: Words, h: Heap, a: int)
    requires Valid(h) && a in h.blocks
    ensures RespellWord(words, h, FooterOf(a, h.blocks[a].size)) == h.blocks[a].size
  {
    var f := FooterOf(a, h.blocks[a].size);
    assert BlockOk(h.arenas, h.blocks, a);
    assert GP.IsFooter(h.blocks, f);
    if f in h.blocks {
      assert BlockOk(h.arenas, h.blocks, f);
      Disjoint(h.arenas, h.blocks, a, f);
    } else {
      forall b | b in h.blocks && FooterOf(b, h.blocks[b].size) == f ensures b == a {
        if b != a {
          HL.EndsDiffer(h, a, b);
        }
      }
    }
  }

  lemma TagsSpelled(words: Words, os: Os, h: Heap)
    requires Valid(h) && HL.MappedBy(h, os)
    ensures GP.Tagged(Respell(words, os.mapped, h), h.blocks)
  {
    var after := Respell(words, os.mapped, h);
    forall a | a in h.blocks ensures GP.TagOk(after, h.blocks, a) {
      assert BlockOk(h.arenas, h.blocks, a) && BlockAligned(h.blocks, a);
      var arena := h.arenas[h.blocks[a].arena];
      assert WordsOf(Region(arena.base, arena.size)) <= os.mapped;
      GP.AlignedSum(a, HEADER + h.blocks[a].size);
      InRegion(Region(arena.base, arena.size), a);
      InRegion(Region(arena.base, arena.size), FooterOf(a, h.blocks[a].size));
      FooterSpelled(words, h, a);
    }
  }

  /** Listed blocks are distinct and apart. */
  lemma ListedApart(h: Heap, i: int, j: int)
    requires Valid(h) && 0 <= i < |h.list| && 0 <= j < |h.list| && i != j
    ensures h.list[i] + OVERHEAD + LINKS <= h.list[j] || h.list[j] + OVERHEAD + LINKS <= h.list[i]
  {
    assert h.list[i] in h.list && h.list[j] in h.list;
    assert BlockOk(h.arenas, h.blocks, h.list[i]) && BlockOk(h.arenas, h.blocks, h.list[j]);
    Disjoint(h.arenas, h.blocks, h.list[i], h.list[j]);
  }

  lemma LinkValues(h: Heap, k: int)
    requires Valid(h) && 0 <= k < |h.list|
    ensures LinkValue(h.list, NextLink(h.list[k])) == LinkTo(h.list, k + 1)
    ensures LinkValue(h.list, PrevLink(h.list[k])) == LinkTo(h.list, k - 1)
  {
    var x := h.list[k];
    assert x == NextLink(x) - HEADER && x == PrevLink(x) - HEADER - 8;
    forall j | 0 <= j < |h.list| && (h.list[j] == x || h.list[j] == x + 8 || h.list[j] == x - 8) ensures j == k {
      if j != k {
        ListedApart(h, j, k);
      }
    }
  }

  lemma LinksSpelled(words: Words, os: Os, h: Heap)
    requires Valid(h) && HL.MappedBy(h, os)
    ensures Linked(Respell(words, os.mapped, h), LinkTo(h.list, 0), h.list)
  {
    var after := Respell(words, os.mapped, h);
    forall i, j | 0 <= i < j < |h.list| ensures Apart(h.list[i], h.list[j]) {
      ListedApart(h, i, j);
    }
    forall k | 0 <= k < |h.list| ensures LinksOf(after, h.list, k) {
      LinkWordsMapped(h, os, k);
      LinkValues(h, k);
      NoTagThere(h, NextLink(h.list[k]));
      NoTagThere(h, PrevLink(h.list[k]));
    }
  }

  lemma LinkWordsMapped(h: Heap, os: Os, k: int)
    requires Valid(h) && HL.MappedBy(h, os) && 0 <= k < |h.list|
    ensures var x := h.list[k];
            && 0 < x && NextLink(x) in os.mapped && PrevLink(x) in os.mapped
            && IsLinkWord(h.list, NextLink(x)) && IsLinkWord(h.list, PrevLink(x))
  {
    var x := h.list[k];
    assert x in h.list && BlockOk(h.arenas, h.blocks, x) && BlockAligned(h.blocks, x);
    assert x == NextLink(x) - HEADER && x == PrevLink(x) - HEADER - 8;
    var arena := h.arenas[h.blocks[x].arena];
    assert WordsOf(Region(arena.base, arena.size)) <= os.mapped;
    AlignedIsWord(x);
    EightsAdd(x, HEADER);
    EightsAdd(x + HEADER, 8);
  }

  /** A link word is no header and no footer. */
  lemma NoTagThere(h: Heap, w: int)
    requires Valid(h) && IsLinkWord(h.list, w)
    ensures w !in h.blocks && !GP.IsFooter(h.blocks, w)
  {
    if w in h.blocks {
      GP.TagIsNotLink(h.arenas, h.blocks, h.list, w);
    } else if a :| a in h.blocks && FooterOf(a, h.blocks[a].size) == w {
      GP.TagIsNotLink(h.arenas, h.blocks, h.list, a);
    }
  }

  /** No payload word of a live block is written. */
  lemma PayloadSpared(words: Words, mapped: set<int>, h: Heap, a: int, w: int)
    requires Valid(h) && a in h.blocks && !h.blocks[a].free && a + HEADER <= w < a + HEADER + h.blocks[a].size
    requires w in words && w in mapped
    ensures Respell(words, mapped, h)[w] == words[w]
  {
    if GP.HeapWord(h, w) {
      var b := GP.HeapWordInBlock(h, w);
      if b != a {
        Disjoint(h.arenas, h.blocks, a, b);
      }
    }
  }

  /** Nothing outside the arenas is written. */
  lemma OutsideSpared(s: Sys, s': Sys, w: int)
    requires Valid(s'.heap) && ArenasGrow(s, s') && s.words.Keys == s.os.mapped
    requires w in s.words && w in s'.os.mapped && !GP.InArenas(s.heap.arenas, w)
    ensures Respell(s.words, s'.os.mapped, s'.heap)[w] == s.words[w]
  {
    if GP.HeapWord(s'.heap, w) {
      var k := HeapWordInArena(s'.heap, w);
    }
  }

  lemma HeapWordInArena(h: Heap, w: int) returns (k: nat)
    requires Valid(h) && GP.HeapWord(h, w)
    ensures k < |h.arenas| && w in WordsOf(Region(h.arenas[k].base, h.arenas[k].size))
    ensures h.arenas[k].base <= w < h.arenas[k].base + h.arenas[k].size
  {
    var a := GP.HeapWordInBlock(h, w);
    HeapWordAligned(h, w);
    assert BlockOk(h.arenas, h.blocks, a);
    k := h.blocks[a].arena;
  }

  lemma HeapWordAligned(h: Heap, w: int)
    requires Valid(h) && GP.HeapWord(h, w)
    ensures w % 8 == 0
  {
    if w in h.blocks {
      assert BlockAligned(h.blocks, w);
      AlignedIsWord(w);
    } else if IsLinkWord(h.list, w) {
      var x := if w - HEADER in h.list then w - HEADER else w - HEADER - 8;
      assert BlockAligned(h.blocks, x);
      AlignedIsWord(x);
      EightsAdd(x, HEADER);
      EightsAdd(x + HEADER, 8);
    } else {
      var a :| a in h.blocks && FooterOf(a, h.blocks[a].size) == w;
      assert BlockAligned(h.blocks, a);
      GP.AlignedSum(a, HEADER + h.blocks[a].size);
      AlignedIsWord(w);
    }
  }

  /** Whatever valid heap a critical section computes, memory can be brought in line with it. */
  lemma RespellWorks(cfg: Config, s: Sys, s': Sys, except: set<int>)
    requires MemoryOk(cfg, s) && Valid(s'.heap) && HL.MappedBy(s'.heap, s'.os)
    requires s.os.mapped <= s'.os.mapped && ArenasGrow(s, s')
    requires forall a | IsLive(s.heap, a) && a !in except ::
               IsLive(s'.heap, a) && s.heap.blocks[a].size <= s'.heap.blocks[a].size
    ensures GeneralWrites(s, s'.heap, Respell(s.words, s'.os.mapped, s'.heap), LinkTo(s'.heap.list, 0), s'.os.mapped, except)
  {
    var words' := Respell(s.words, s'.os.mapped, s'.heap);
    TagsSpelled(s.words, s'.os, s'.heap);
    LinksSpelled(s.words, s'.os, s'.heap);
    assert words'.Keys == s'.os.mapped;
    forall a, w | a in s.heap.blocks && !s.heap.blocks[a].free && a !in except && GP.InPayload(s.heap.blocks, a, w) && w in s.words
      ensures w in words' && words'[w] == s.words[w]
    {
      assert IsLive(s.heap, a);
      PayloadSpared(s.words, s'.os.mapped, s'.heap, a, w);
    }
    forall w | w in s.words && !GP.InArenas(s.heap.arenas, w) ensures words'[w] == s.words[w] {
      OutsideSpared(s, s', w);
    }
  }

  // ---- Every label but a wait has a step ---------------------------------------------------------------

  ghost predicate CanStep(cfg: Config, s: Sys, t: nat) {
    exists s' :: ThreadStep(cfg, s, t, s')
  }

  lemma Witness(cfg: Config, s: Sys, t: nat, s': Sys)
    requires ThreadStep(cfg, s, t, s')
    ensures CanStep(cfg, s, t)
  {
  }

  /** Allocation leaves every live block where it is. */
  lemma AllocateSpares(cfg: Config, s: Sys, size: int)
    requires MemoryOk(cfg, s) && LINKS <= size && size % ALIGNMENT == 0
    ensures forall k | 0 <= k < |s.heap.list| :: s.heap.list[k] in s.heap.blocks
    ensures var (h', os', p) := Allocate(s.heap, s.os, cfg.arenaSize, size);
            GeneralWrites(s, h', Respell(s.words, os'.mapped, h'), LinkTo(h'.list, 0), os'.mapped, {})
  {
    HL.AllocateMeans(s.heap, s.os, cfg.arenaSize, size);
    AllocateArenas(s, cfg.arenaSize, size);
    var (h', os', p) := Allocate(s.heap, s.os, cfg.arenaSize, size);
    var s1 := s.(heap := h', os := os');
    TakeLive(s, s1, p, size);
    forall a | IsLive(s.heap, a) && a !in {} ensures IsLive(s1.heap, a) && s.heap.blocks[a].size <= h'.blocks[a].size {
      assert HL.StillLive(s.heap, s1.heap, a);
    }
    RespellWorks(cfg, s, s1, {});
  }

  lemma GeneralAllocSteps(cfg: Config, s: Sys, t: nat)
    requires MemoryOk(cfg, s) && Ready(s, t) && s.threads[t].at.GeneralAlloc?
    ensures CanStep(cfg, s, t)
  {
    var th := s.threads[t];
    AlignUpExact(th.n);
    AllocateSpares(cfg, s, AlignUp(th.n));
    GeneralAllocWitness(cfg, s, t);
  }

  lemma GeneralAllocWitness(cfg: Config, s: Sys, t: nat)
    requires t in s.threads && s.threads[t].at.GeneralAlloc? && 0 <= s.threads[t].n <= MAX_REQUEST
    requires forall k | 0 <= k < |s.heap.list| :: s.heap.list[k] in s.heap.blocks
    requires var (h', os', p) := Allocate(s.heap, s.os, cfg.arenaSize, AlignUp(s.threads[t].n));
             GeneralWrites(s, h', Respell(s.words, os'.mapped, h'), LinkTo(h'.list, 0), os'.mapped, {})
    ensures CanStep(cfg, s, t)
  {
    var th := s.threads[t];
    var (h', os', p) := Allocate(s.heap, s.os, cfg.arenaSize, AlignUp(th.n));
    var s' := Put(s.(heap := h', os := os', words := Respell(s.words, os'.mapped, h'), head := LinkTo(h'.list, 0)), t,
                  th.(at := Leave(GeneralLock(cfg), Returning), result := p));
    assert GeneralTake(cfg, s, t, s'.words, s');
    Witness(cfg, s, t, s');
  }

  lemma GeneralFreeSteps(cfg: Config, s: Sys, t: nat)
    requires MemoryOk(cfg, s) && Ready(s, t) && s.threads[t].at.GeneralFree?
    ensures CanStep(cfg, s, t)
  {
    var th := s.threads[t];
    var a := th.ptr - HEADER;
    HL.ReleaseMeans(s.heap, a);
    var h' := Release(s.heap, a);
    var s1 := s.(heap := h');
    forall b | IsLive(s.heap, b) && b !in {a} ensures IsLive(s1.heap, b) && s.heap.blocks[b].size <= h'.blocks[b].size {
      assert IsLive(s.heap, b) && HL.StillLive(s.heap, h', b);
    }
    RespellWorks(cfg, s, s1, {a});
    var words' := Respell(s.words, s.os.mapped, h');
    var s' := Put(s.(heap := h', words := words', head := LinkTo(h'.list, 0)), t, th.(at := Leave(GeneralLock(cfg), Freed), ptr := 0));
    assert GeneralRelease(cfg, s, t, s'.words, s');
    Witness(cfg, s, t, s');
  }

  lemma GrowSteps(cfg: Config, s: Sys, t: nat)
    requires MemoryOk(cfg, s) && Ready(s, t) && s.threads[t].at.Resizing?
    requires var a, n := s.threads[t].source - HEADER, AlignUp(s.threads[t].n);
             && s.heap.blocks[a].arena < |s.heap.arenas| && s.heap.blocks[a].size < n && CanGrow(s.heap, a, n)
    ensures CanStep(cfg, s, t)
  {
    var th := s.threads[t];
    var a, n := th.source - HEADER, AlignUp(th.n);
    AlignUpExact(th.n);
    HL.GrowMeans(s.heap, a, n);
    var h' := Grow(s.heap, a, n);
    var s1 := s.(heap := h');
    forall b | IsLive(s.heap, b) && b !in {} ensures IsLive(s1.heap, b) && s.heap.blocks[b].size <= h'.blocks[b].size {
      assert IsLive(s.heap, b) && (b != a ==> HL.StillLive(s.heap, h', b));
    }
    RespellWorks(cfg, s, s1, {});
    var words' := Respell(s.words, s.os.mapped, h');
    var s' := Put(s.(heap := h', words := words', head := LinkTo(h'.list, 0)), t,
                  th.(at := Leave(GeneralLock(cfg), Returning), result := th.source, source := 0));
    assert Resize(cfg, s, t, s'.words, s');
    Witness(cfg, s, t, s');
  }

  lemma ResizingSteps(cfg: Config, s: Sys, t: nat)
    requires MemoryOk(cfg, s) && Ready(s, t) && s.threads[t].at.Resizing?
    ensures CanStep(cfg, s, t)
  {
    var th := s.threads[t];
    var a, n := th.source - HEADER, AlignUp(th.n);
    BlockInArena(s, a);
    if s.heap.blocks[a].size < n && CanGrow(s.heap, a, n) {
      GrowSteps(cfg, s, t);
    } else {
      var s' := Put(s, t, if n <= s.heap.blocks[a].size
                          then th.(at := Leave(GeneralLock(cfg), Returning), result := th.source, source := 0)
                          else th.(at := Leave(GeneralLock(cfg), Calling), size := s.heap.blocks[a].size));
      assert Resize(cfg, s, t, s'.words, s');
      Witness(cfg, s, t, s');
    }
  }

  lemma ExpandSteps(cfg: Config, s: Sys, t: nat)
    requires NeedsArena(s, t)
    ensures CanStep(cfg, s, t)
  {
    var th := s.threads[t];
    var i := th.i;
    TotalAligned(i);
    var (answer, os') := s.os.Ask(Total(i) * SLOTS_PER_ARENA);
    if answer.Some? {
      var r := answer.value;
      var s' := s.(os := os', sl := ExpandSlots(s.sl, i, r), words := s.words + ArenaWords(r, Total(i)));
      assert ExpandGranted(s, t, s');
      Witness(cfg, s, t, s');
    } else {
      var s' := Put(s.(os := os'), t, th.(at := Leave(PoolLock(cfg, i), if th.at.PoolAlloc? then Returning else Installing)));
      assert ExpandRefused(cfg, s, t, s');
      Witness(cfg, s, t, s');
    }
  }

  lemma RefillingSteps(cfg: Config, s: Sys, t: nat)
    requires Ready(s, t) && s.threads[t].at.Refilling?
    ensures CanStep(cfg, s, t)
  {
    var th := s.threads[t];
    var p, q := InPool(th.i), InFlight(t, th.i);
    assert CacheOk(s, t, th, th.i);
    if |At(s.sl, q)| == TC.BATCH {
      var s' := Put(s, t, th.(at := Leave(PoolLock(cfg, th.i), Installing)));
      assert RefillFull(cfg, s, t, s');
      Witness(cfg, s, t, s');
    } else if At(s.sl, p) == [] {
      ExpandSteps(cfg, s, t);
    } else {
      var x, batch := At(s.sl, p)[0], At(s.sl, q);
      var w := s.words[x := 0];
      var s' := s.(sl := Transfer(s.sl, p, At(s.sl, p)[1..], q, batch + [x]),
                   words := if batch == [] then w else w[Last(batch) := x]);
      assert RefillTake(s, t, s');
      Witness(cfg, s, t, s');
    }
  }

  lemma PoolAllocSteps(cfg: Config, s: Sys, t: nat)
    requires Ready(s, t) && s.threads[t].at.PoolAlloc? && |cfg.addr| == CLASSES
    ensures CanStep(cfg, s, t)
  {
    var th := s.threads[t];
    var p := InPool(th.i);
    if At(s.sl, p) == [] {
      ExpandSteps(cfg, s, t);
    } else {
      var x := At(s.sl, p)[0];
      var s' := Put(s.(sl := PopSlots(s.sl, p), words := s.words[x := cfg.addr[th.i]]), t,
                    th.(at := Leave(PoolLock(cfg, th.i), Returning), result := x + SLOT_HEADER));
      assert PoolTake(cfg, s, t, s');
      Witness(cfg, s, t, s');
    }
  }

  lemma CallingSteps(cfg: Config, s: Sys, t: nat)
    requires t in s.threads && s.threads[t].at.Calling? && |cfg.addr| == CLASSES
    ensures CanStep(cfg, s, t)
  {
    var th := s.threads[t];
    var i := ClassFor(th.n);
    var p := InCache(t, i);
    var s' :=
      if i == CLASSES then Put(s, t, th.(at := GeneralWait))
      else if cfg.stage != 3 then Put(s, t, th.(at := PoolWait, i := i))
      else if At(s.sl, p) == [] then Put(s, t, th.(at := RefillWait, i := i))
      else Put(s.(sl := PopSlots(s.sl, p), words := s.words[At(s.sl, p)[0] := cfg.addr[i]]), t,
               th.(at := Returning, i := i, result := At(s.sl, p)[0] + SLOT_HEADER));
    assert Dispatch(cfg, s, t, s');
    Witness(cfg, s, t, s');
  }

  lemma InstallingSteps(cfg: Config, s: Sys, t: nat)
    requires t in s.threads && s.threads[t].at.Installing?
    ensures CanStep(cfg, s, t)
  {
    var th := s.threads[t];
    var p, q := InCache(t, th.i), InFlight(t, th.i);
    var s' := if At(s.sl, q) == [] then Put(s, t, th.(at := Returning))
              else Put(s.(sl := Transfer(s.sl, p, At(s.sl, q), q, [])), t, th.(at := Calling));
    assert Install(s, t, s');
    Witness(cfg, s, t, s');
  }

  lemma FlushSteps(cfg: Config, s: Sys, t: nat)
    requires Ready(s, t)
    requires s.threads[t].at.Detaching? || s.threads[t].at.Flushing?
    ensures CanStep(cfg, s, t)
  {
    var th := s.threads[t];
    var cache, q := InCache(t, th.i), InFlight(t, th.i);
    assert CacheOk(s, t, th, th.i);
    if th.at.Detaching? {
      var s' := Put(s.(sl := Transfer(s.sl, cache, At(s.sl, cache)[TC.BATCH..], q, At(s.sl, cache)[..TC.BATCH]),
                       words := s.words[At(s.sl, cache)[TC.BATCH - 1] := 0]), t, th.(at := FlushWait));
      assert Detach(s, t, s');
      Witness(cfg, s, t, s');
    } else {
      var p := InPool(th.i);
      var s' := Put(s.(sl := Transfer(s.sl, p, At(s.sl, q) + At(s.sl, p), q, []),
                       words := s.words[Last(At(s.sl, q)) := LinkTo(At(s.sl, p), 0)]), t,
                    th.(at := Leave(PoolLock(cfg, th.i), Freed)));
      assert SpliceBack(cfg, s, t, s');
      Witness(cfg, s, t, s');
    }
  }

  lemma PushSteps(cfg: Config, s: Sys, t: nat)
    requires t in s.threads && (s.threads[t].at.CacheFree? || s.threads[t].at.PoolFree?)
    ensures CanStep(cfg, s, t)
  {
    var th := s.threads[t];
    var x := th.ptr - SLOT_HEADER;
    if th.at.CacheFree? {
      var p := InCache(t, th.i);
      var s' := Put(s.(sl := PushSlots(s.sl, p, x), words := s.words[x := LinkTo(At(s.sl, p), 0)]), t,
                    th.(at := if |At(s.sl, p)| + 1 > TC.CAP then Detaching else Freed, ptr := 0));
      assert CachePush(s, t, s');
      Witness(cfg, s, t, s');
    } else {
      var p := InPool(th.i);
      var s' := Put(s.(sl := PushSlots(s.sl, p, x), words := s.words[x := LinkTo(At(s.sl, p), 0)]), t,
                    th.(at := Leave(PoolLock(cfg, th.i), Freed), ptr := 0));
      assert PoolPush(cfg, s, t, s');
      Witness(cfg, s, t, s');
    }
  }

  /** The unlocked tag reads find their word mapped. */
  lemma TagSteps(cfg: Config, s: Sys, t: nat)
    requires MemoryOk(cfg, s) && Ready(s, t) && (s.threads[t].at.FreeTag? || s.threads[t].at.ReallocTag?)
    ensures CanStep(cfg, s, t)
  {
    var th := s.threads[t];
    if th.at.FreeTag? {
      assert th.ptr in Regs(th);
      TagRoutes(cfg, s, th.ptr);
      var s' := match PoolOf(cfg, s.words[th.ptr - HEADER])
        case Some(i) => Put(s, t, th.(at := if cfg.stage == 3 then CacheFree else PoolFreeWait, i := i))
        case None => Put(s, t, th.(at := GeneralFreeWait));
      assert ReadTag(cfg, s, t, s');
      Witness(cfg, s, t, s');
    } else {
      assert th.source in Regs(th);
      TagRoutes(cfg, s, th.source);
      var s' := match PoolOf(cfg, s.words[th.source - HEADER])
        case Some(i) =>
          if th.n <= Payload(i) then Put(s, t, th.(at := Returning, i := i, result := th.source, source := 0))
          else Put(s, t, th.(at := Calling, i := i, size := Payload(i)))
        case None => Put(s, t, th.(at := ResizeWait));
      assert ReallocRoute(cfg, s, t, s');
      Witness(cfg, s, t, s');
    }
  }

  lemma PlainSteps(cfg: Config, s: Sys, t: nat)
    requires t in s.threads
    requires var at := s.threads[t].at; at.Returning? || at.Freed? || at.Copying? || at.Leave?
    ensures CanStep(cfg, s, t)
  {
    var th := s.threads[t];
    if th.at.Returning? {
      var s' := if th.source != 0 && th.result != 0 then Put(s, t, th.(at := Copying))
                else Put(s.(held := s.held + NonNull(th.result) + NonNull(th.source)), t, IDLE_THREAD);
      assert Return(s, t, s');
      Witness(cfg, s, t, s');
    } else if th.at.Freed? {
      var s' := Put(s.(held := s.held + NonNull(th.result)), t, IDLE_THREAD);
      assert FreeReturn(s, t, s');
      Witness(cfg, s, t, s');
    } else if th.at.Copying? {
      var s' := Put(s.(words := CopyWords(s.words, th.source, th.result, if th.size < th.n then th.size else th.n)), t,
                    th.(at := FreeTag, ptr := th.source, source := 0));
      assert Copy(s, t, s');
      Witness(cfg, s, t, s');
    } else {
      var s' := Put(s.(owner := s.owner - {th.at.m}), t, th.(at := th.at.next));
      assert Unlock(s, t, s');
      Witness(cfg, s, t, s');
    }
  }

  /** A thread inside a call that is not waiting for a lock can take a step. */
  lemma RunnersRun(cfg: Config, s: Sys, t: nat)
    requires Inv(cfg, s) && t in s.threads && !s.threads[t].at.Idle? && WaitsFor(cfg, s.threads[t]).None?
    ensures CanStep(cfg, s, t)
  {
    IsReady(cfg, s, t);
    match s.threads[t].at
    case Calling => CallingSteps(cfg, s, t);
    case Refilling => RefillingSteps(cfg, s, t);
    case Installing => InstallingSteps(cfg, s, t);
    case PoolAlloc => PoolAllocSteps(cfg, s, t);
    case GeneralAlloc => GeneralAllocSteps(cfg, s, t);
    case FreeTag => TagSteps(cfg, s, t);
    case ReallocTag => TagSteps(cfg, s, t);
    case CacheFree => PushSteps(cfg, s, t);
    case PoolFree => PushSteps(cfg, s, t);
    case Detaching => FlushSteps(cfg, s, t);
    case Flushing => FlushSteps(cfg, s, t);
    case GeneralFree => GeneralFreeSteps(cfg, s, t);
    case Resizing => ResizingSteps(cfg, s, t);
    case _ => PlainSteps(cfg, s, t);
  }

  /** In every state of every run, a thread inside a call can take a step, or waits for a mutex
      whose owner can: no state is deadlocked. */
  lemma NoDeadlock(cfg: Config, run: seq<Sys>, k: nat, t: nat)
    requires IsRun(cfg, run) && k < |run| && t in run[k].threads && !run[k].threads[t].at.Idle?
    ensures var s := run[k]; var m := WaitsFor(cfg, s.threads[t]);
            CanStep(cfg, s, t) || (m.Some? && m.value in s.owner && CanStep(cfg, s, s.owner[m.value]))
  {
    RunInv(cfg, run, k);
    Unblocked(cfg, run[k], t);
  }

  lemma Unblocked(cfg: Config, s: Sys, t: nat)
    requires Inv(cfg, s) && t in s.threads && !s.threads[t].at.Idle?
    ensures var m := WaitsFor(cfg, s.threads[t]);
            CanStep(cfg, s, t) || (m.Some? && m.value in s.owner && CanStep(cfg, s, s.owner[m.value]))
  {
    var th := s.threads[t];
    var m := WaitsFor(cfg, th);
    if m.None? {
      RunnersRun(cfg, s, t);
    } else if m.value in s.owner {
      var u := s.owner[m.value];
      OwnerRuns(cfg, s, m.value, u);
      RunnersRun(cfg, s, u);
    } else {
      var s' := Put(s.(owner := s.owner[m.value := t]), t, th.(at := Entered(th.at)));
      assert Acquire(cfg, s, t, s');
      Witness(cfg, s, t, s');
    }
  }

  lemma OwnerRuns(cfg: Config, s: Sys, m: Mutex, u: nat)
    requires LocksOk(cfg, s) && m in s.owner && s.owner[m] == u
    ensures u in s.threads && !s.threads[u].at.Idle? && WaitsFor(cfg, s.threads[u]).None?
  {
  }
}
