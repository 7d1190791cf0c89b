/** Steps that change the general heap, map memory, or write payloads keep the invariant. */
module ThreadHeapProof {
  import opened Machine
  import opened BlockTags
  import opened FreeLists
  import opened HeapModel
  import opened Chains
  import opened MemoryPool
  import opened SlotSystem
  import opened Threads
  import opened ThreadInvariant
  import opened ThreadProof
  import opened ThreadSlotProof
  import opened ThreadSlotSteps
  import GP = GeneralPath
  import TC = ThreadCache
  import HL = HeapLaws

  // ---- Where things lie ----------------------------------------------------------------------

  /** A slot lies clear of every arena, as a range of addresses. */
  lemma SlotClearOfArena(cfg: Config, s: Sys, i: nat, x: int, k: int)
    requires MemoryOk(cfg, s) && IsSlot(s.sl, i, x) && 0 <= k < |s.heap.arenas|
    ensures var arena := s.heap.arenas[k];
            x + Total(i) <= arena.base || arena.base + arena.size <= x
  {
    assert SlotAside(s.heap, i, x, k) && ArenaAligned(s.heap.arenas[k]);
    SlotWord(s.sl, s.words, s.os.mapped, i, x);
    RegionsApart(Region(x, Total(i)), Region(s.heap.arenas[k].base, s.heap.arenas[k].size));
  }

  lemma BlockInArena(s: Sys, a: int)
    requires HeapOk(s) && a in s.heap.blocks
    ensures var k := s.heap.blocks[a].arena;
            && k < |s.heap.arenas| && s.heap.arenas[k].base <= a
            && Past(a, s.heap.blocks[a]) <= s.heap.arenas[k].base + s.heap.arenas[k].size
            && LINKS <= s.heap.blocks[a].size
  {
    assert BlockOk(s.heap.arenas, s.heap.blocks, a);
  }

  /** The whole extents of two live pointers, headers included, do not meet. */
  lemma LiveApart(cfg: Config, s: Sys, p: int, q: int)
    requires MemoryOk(cfg, s) && PtrLive(s, p) && PtrLive(s, q) && p != q
    ensures p + Cap(s, p) <= q - HEADER || q + Cap(s, q) <= p - HEADER
  {
    var a, b := p - HEADER, q - HEADER;
    if a in s.sl.live && b in s.sl.live {
      assert LiveOk(cfg.addr, s.sl, s.words, a) && LiveOk(cfg.addr, s.sl, s.words, b);
      assert Clear(s.sl.live[a], a, s.sl.live[b], b);
    } else if a in s.sl.live {
      LiveSlotApart(cfg, s, p, b);
    } else if b in s.sl.live {
      LiveSlotApart(cfg, s, q, a);
    } else {
      Disjoint(s.heap.arenas, s.heap.blocks, a, b);
    }
  }

  lemma LiveSlotApart(cfg: Config, s: Sys, p: int, b: int)
    requires MemoryOk(cfg, s) && p - HEADER in s.sl.live && b in s.heap.blocks
    ensures p + Cap(s, p) <= b || Past(b, s.heap.blocks[b]) <= p - HEADER
  {
    assert LiveOk(cfg.addr, s.sl, s.words, p - HEADER);
    BlockInArena(s, b);
    SlotClearOfArena(cfg, s, s.sl.live[p - HEADER], p - HEADER, s.heap.blocks[b].arena);
  }

  /** No header, footer or link word of the general heap lies in a live payload. */
  lemma HeapWordOutsidePayload(cfg: Config, s: Sys, w: int, p: int)
    requires MemoryOk(cfg, s) && GP.HeapWord(s.heap, w) && PtrLive(s, p)
    ensures w < p || p + Cap(s, p) <= w
  {
    var a := GP.HeapWordInBlock(s.heap, w);
    BlockInArena(s, a);
    var b := p - HEADER;
    if b in s.sl.live {
      LiveSlotApart(cfg, s, p, a);
    } else if a != b {
      Disjoint(s.heap.arenas, s.heap.blocks, a, b);
      BlockInArena(s, b);
    }
  }

  lemma CapAligned(cfg: Config, s: Sys, p: int)
    requires MemoryOk(cfg, s) && PtrLive(s, p)
    ensures Cap(s, p) % ALIGNMENT == 0
  {
    if p - HEADER in s.sl.live {
      assert LiveOk(cfg.addr, s.sl, s.words, p - HEADER);
      TotalAligned(s.sl.live[p - HEADER]);
    } else {
      assert BlockAligned(s.heap.blocks, p - HEADER);
    }
  }

  // ---- Putting a step together ----------------------------------------------------------------

  /** Apart from memory, only t's registers change, and t holds what it held. */
  ghost predicate OwnStep(cfg: Config, s: Sys, s': Sys, t: nat) {
    && t in s.threads && t in s'.threads
    && s'.threads == s.threads[t := s'.threads[t]] && s'.owner == s.owner && s'.held == s.held
    && Holds(cfg, s'.threads[t]) == Holds(cfg, s.threads[t])
  }

  /** The pointers in `gone` stop being live, those in `born` start, and no others. */
  ghost predicate LiveChange(s: Sys, s': Sys, gone: set<int>, born: set<int>) {
    && (forall p :: PtrLive(s', p) <==> (PtrLive(s, p) && p !in gone) || p in born)
    && (forall p | p in born :: !PtrLive(s, p))
  }

  /** Everything a step of t has to show but the ownership of all threads. */
  ghost predicate Effect(cfg: Config, s: Sys, s': Sys, t: nat, gone: set<int>, born: set<int>) {
    && MemoryOk(cfg, s') && OwnStep(cfg, s, s', t) && Quiet(s, s', t)
    && LiveChange(s, s', gone, born) && Exchanged(s, s', t, gone, born)
    && ThreadOk(s', t)
  }

  lemma Conclude(cfg: Config, s: Sys, s': Sys, t: nat, gone: set<int>, born: set<int>)
    requires Inv(cfg, s) && Effect(cfg, s, s', t, gone, born)
    ensures Inv(cfg, s')
  {
    IsReady(cfg, s, t);
    SlotOwnership(s, s', t, gone, born);
    LocksUnchanged(cfg, s, s', t);
    Assemble(cfg, s, s', t);
  }

  // ---- Writing a payload -----------------------------------------------------------------------

  /** Only words of the payload at p are written. */
  ghost predicate PayloadOnly(s: Sys, words': Words, p: int) {
    && words'.Keys == s.words.Keys
    && forall w | w in s.words && !(p <= w < p + Cap(s, p)) :: words'[w] == s.words[w]
  }

  lemma PayloadMemory(cfg: Config, s: Sys, s': Sys, p: int)
    requires MemoryOk(cfg, s) && PtrLive(s, p) && PayloadOnly(s, s'.words, p)
    requires s'.heap == s.heap && s'.head == s.head && s'.os == s.os && s'.sl == s.sl
    ensures MemoryOk(cfg, s')
  {
    forall i, x | IsSlot(s.sl, i, x) && x in s.words ensures s'.words[x] == s.words[x] {
      HeaderOutsidePayload(cfg, s, i, x, p);
    }
    WordsKeep(cfg.addr, s.sl, s.words, s'.words, s.os.mapped, s.os.mapped);
    forall w | w in s.words && GP.HeapWord(s.heap, w) ensures s'.words[w] == s.words[w] {
      HeapWordOutsidePayload(cfg, s, w, p);
    }
    GP.SpelledFrame(s.words, s'.words, s.head, s.heap);
    forall i, x, k | IsSlot(s'.sl, i, x) && 0 <= k < |s'.heap.arenas| ensures SlotAside(s'.heap, i, x, k) {
      assert SlotAside(s.heap, i, x, k);
    }
  }

  lemma PayloadKept(cfg: Config, s: Sys, s': Sys, p: int, q: int)
    requires MemoryOk(cfg, s) && PtrLive(s, p) && PtrLive(s, q) && p != q && PayloadOnly(s, s'.words, p)
    requires s'.heap == s.heap && s'.sl == s.sl
    ensures Kept(s, s', q)
  {
    LiveApart(cfg, s, p, q);
  }

  /** A client's write changes one payload it holds; every thread's own pointers are kept. */
  lemma ClientWriteKeeps(cfg: Config, s: Sys, p: int, k: int, value: int, s': Sys)
    requires Inv(cfg, s) && ClientWrite(s, p, k, value, s')
    ensures Inv(cfg, s')
    ensures forall q | PtrLive(s, q) && q != p :: Kept(s, s', q)
  {
    assert PayloadOnly(s, s'.words, p);
    PayloadMemory(cfg, s, s', p);
    forall q | PtrLive(s, q) && q != p ensures Kept(s, s', q) {
      PayloadKept(cfg, s, s', p, q);
    }
    ClientOwnership(s, s');
    forall u | u in s'.threads ensures ThreadOk(s', u) {
      ClientThread(s, s', u, p);
    }
    forall u: nat, j: nat | u !in s'.threads ensures OwnPlacesEmpty(s', u, j) {
      assert OwnPlacesEmpty(s, u, j);
    }
  }

  lemma ClientOwnership(s: Sys, s': Sys)
    requires OwnershipOk(s) && s' == s.(words := s'.words)
    ensures OwnershipOk(s')
  {
    assert forall p :: PtrLive(s', p) == PtrLive(s, p);
    assert forall t, p :: Owns(s', t, p) == Owns(s, t, p);
  }

  lemma ClientThread(s: Sys, s': Sys, u: nat, p: int)
    requires OwnershipOk(s) && u in s.threads && ThreadOk(s, u) && p in s.held && s' == s.(words := s'.words)
    requires forall q | PtrLive(s, q) && q != p :: Kept(s, s', q)
    ensures ThreadOk(s', u)
  {
    OwnedApart(s, u);
    RegsKept(s, s', s.threads[u]);
    forall j ensures CacheOk(s', u, s.threads[u], j) {
      assert CacheOk(s, u, s.threads[u], j);
    }
  }

  // ---- The copy of my_realloc --------------------------------------------------------------------

  /** What is read at `from` is found at `target` afterwards, and nothing else is written. */
  lemma CopyMoves(words: Words, from: int, target: int, n: int, data: map<int, int>)
    requires DataAt(words, from, data)
    requires forall k | k in data :: 0 <= k < n && target + k in words
    ensures var after := CopyWords(words, from, target, n);
            && DataAt(after, target, data) && after.Keys == words.Keys
            && forall w | w in words && !(target <= w < target + n) :: after[w] == words[w]
  {
    forall k | k in data ensures CopiedWord(words, from, target, n, target + k) == data[k] {
      assert from + ((target + k) - target) == from + k;
    }
  }

  lemma CopyLands(cfg: Config, s: Sys, t: nat, s': Sys)
    requires MemoryOk(cfg, s) && Ready(s, t) && Copy(s, t, s')
    ensures var th := s.threads[t];
            && PtrLive(s, th.source) && PtrLive(s, th.result) && PayloadOnly(s, s'.words, th.result)
            && DataAt(s'.words, th.result, th.data)
  {
    var th := s.threads[t];
    assert th.source in Regs(th) && th.result in Regs(th);
    LiveNonNull(cfg, s, th.result);
    CopySizes(s, th);
    CopyMoves(s.words, th.source, th.result, th.size, th.data);
  }

  lemma CopySizes(s: Sys, th: Thread)
    requires RegsOk(s, th) && th.at.Copying?
    ensures th.size <= th.n <= Cap(s, th.result) && DataAt(s.words, th.source, th.data)
    ensures forall k | k in th.data :: 0 <= k < th.size && k in Offsets(Cap(s, th.result))
  {
    assert th.data.Keys == Offsets(th.size);
    forall k | k in th.data ensures k in Offsets(th.size) {
      assert k in th.data.Keys;
    }
  }

  lemma CopyThread(s: Sys, s': Sys, t: nat, th: Thread)
    requires RegsOk(s, th) && CachesOk(s, t, th) && th.at.Copying?
    requires s'.sl == s.sl && s'.heap == s.heap && DataAt(s'.words, th.result, th.data)
    ensures RegsOk(s', th.(at := FreeTag, ptr := th.source, source := 0))
    ensures CachesOk(s', t, th.(at := FreeTag, ptr := th.source, source := 0))
  {
    var th' := th.(at := FreeTag, ptr := th.source, source := 0);
    assert Cap(s', th.result) == Cap(s, th.result);
    forall j ensures CacheOk(s', t, th', j) {
      assert CacheOk(s, t, th, j);
    }
  }

  lemma CopyExchange(cfg: Config, s: Sys, t: nat, s': Sys)
    requires Ready(s, t) && Copy(s, t, s')
    ensures OwnStep(cfg, s, s', t) && Exchanged(s, s', t, {}, {}) && LiveChange(s, s', {}, {})
  {
    assert forall p :: PtrLive(s', p) == PtrLive(s, p);
  }

  lemma CopyEffect(cfg: Config, s: Sys, t: nat, s': Sys)
    requires MemoryOk(cfg, s) && Ready(s, t) && Copy(s, t, s')
    ensures Effect(cfg, s, s', t, {}, {})
  {
    var th := s.threads[t];
    CopyLands(cfg, s, t, s');
    PayloadMemory(cfg, s, s', th.result);
    forall p | Spared(s, s', t, p) ensures Kept(s, s', p) {
      assert Owns(s, t, th.result) && th.result in Touched(th);
      PayloadKept(cfg, s, s', th.result, p);
    }
    CopyThread(s, s', t, th);
    CopyExchange(cfg, s, t, s');
  }

  lemma CopyKeeps(cfg: Config, s: Sys, t: nat, s': Sys)
    requires Inv(cfg, s) && Copy(s, t, s')
    ensures Inv(cfg, s') && Quiet(s, s', t)
  {
    IsReady(cfg, s, t);
    CopyEffect(cfg, s, t, s');
    Conclude(cfg, s, s', t, {}, {});
  }

  // ---- New pool arenas -----------------------------------------------------------------------------

  /** The words written while carving spell out the carved chain. */
  lemma ArenaChained(words: Words, r: Region, total: int)
    requires 0 < total && total % ALIGNMENT == 0 && 0 < r.base && r.base % ALIGNMENT == 0
    ensures var added := Carved(r.base, r.size, total);
            Chained(words + ArenaWords(r, total), LinkTo(added, 0), added)
  {
    var added, words' := Carved(r.base, r.size, total), words + ArenaWords(r, total);
    CarvedSlots(r.base, r.size, total);
    forall k | 0 <= k < |added| ensures LinkOk(words', added, k) {
      assert added[k] in added;
      InRegion(r, added[k]);
      LinkFound(added, k);
    }
  }

  lemma LinkFound(chain: seq<int>, k: int)
    requires 0 <= k < |chain| && NoDuplicates(chain)
    ensures LinkIn(chain, chain[k]) == LinkTo(chain, k + 1)
  {
    var j :| 0 <= j < |chain| && chain[j] == chain[k];
    assert forall i | 0 <= i < |chain| && chain[i] == chain[k] :: i == k;
  }

  lemma TotalAligned(i: nat)
    ensures Total(i) % ALIGNMENT == 0 && 0 < Total(i)
  {
  }

  lemma ExpandPlaces(cfg: Config, s: Sys, t: nat, s': Sys, r: Region)
    requires MemoryOk(cfg, s) && NeedsArena(s, t) && s.threads[t].i < CLASSES
    requires s.os.Ask(Total(s.threads[t].i) * SLOTS_PER_ARENA) == (Some(r), s'.os)
    requires s'.sl == ExpandSlots(s.sl, s.threads[t].i, r)
    requires s'.words == s.words + ArenaWords(r, Total(s.threads[t].i))
    ensures PlacesOk(cfg.addr, s'.sl, s'.words, s'.os.mapped) && s'.words.Keys == s'.os.mapped
    ensures forall w | w in s.words :: w in s'.words && s'.words[w] == s.words[w]
    ensures WordsOf(r) !! s.os.mapped && s'.os.mapped == s.os.mapped + WordsOf(r) && s'.os.largest == s.os.largest
    ensures 0 < r.base && r.base % ALIGNMENT == 0
  {
    var i := s.threads[t].i;
    TotalAligned(i);
    AskGrants(s.os, Total(i) * SLOTS_PER_ARENA);
    ArenaChained(s.words, r, Total(i));
    ExpandKeeps(cfg.addr, s.sl, s.words, s'.words, s.os.mapped, i, r);
  }

  lemma ExpandSeparate(cfg: Config, s: Sys, i: nat, s': Sys, r: Region)
    requires MemoryOk(cfg, s) && i < CLASSES && s'.sl == ExpandSlots(s.sl, i, r) && s'.heap == s.heap
    requires 0 < r.base && r.base % ALIGNMENT == 0 && WordsOf(r) !! s.os.mapped
    ensures Separate(s')
  {
    ExpandGeometry(s.sl, s.os.mapped, i, r);
    forall j, x, k | IsSlot(s'.sl, j, x) && 0 <= k < |s'.heap.arenas| ensures SlotAside(s'.heap, j, x, k) {
      if IsSlot(s.sl, j, x) {
        assert SlotAside(s.heap, j, x, k);
      } else {
        assert WordsOf(Region(s.heap.arenas[k].base, s.heap.arenas[k].size)) <= s.os.mapped;
        assert j == i && WordsOf(Region(x, Total(i))) <= WordsOf(r);
      }
    }
  }

  lemma GrownHeapOk(s: Sys, s': Sys)
    requires HeapOk(s) && s'.heap == s.heap && s'.head == s.head
    requires s.os.mapped <= s'.os.mapped && s'.os.largest == s.os.largest
    requires forall w | w in s.words :: w in s'.words && s'.words[w] == s.words[w]
    ensures HeapOk(s')
  {
    GP.SpelledFrame(s.words, s'.words, s.head, s.heap);
    forall k | 0 <= k < |s'.heap.arenas|
      ensures WordsOf(Region(s'.heap.arenas[k].base, s'.heap.arenas[k].size)) <= s'.os.mapped
    {
      assert WordsOf(Region(s.heap.arenas[k].base, s.heap.arenas[k].size)) <= s.os.mapped;
    }
  }

  lemma ExpandThread(s: Sys, s': Sys, t: nat)
    requires Ready(s, t) && s'.threads == s.threads
    requires forall p | PtrLive(s, p) :: Kept(s, s', p)
    requires forall j :: SamePlaces(s, s', t, j)
    ensures ThreadOk(s', t)
  {
    RegsKept(s, s', s.threads[t]);
    forall j ensures CacheOk(s', t, s.threads[t], j) {
      assert CacheOk(s, t, s.threads[t], j) && SamePlaces(s, s', t, j);
    }
  }

  lemma ExpandOthers(s: Sys, s': Sys, i: nat, r: Region)
    requires s'.sl == ExpandSlots(s.sl, i, r) && s'.heap == s.heap
    requires forall w | w in s.words :: w in s'.words && s'.words[w] == s.words[w]
    ensures forall p :: PtrLive(s', p) == PtrLive(s, p)
    ensures forall p | PtrLive(s, p) :: Kept(s, s', p)
    ensures forall u: nat, j: nat :: SamePlaces(s, s', u, j)
  {
  }

  lemma ExpandGrantedEffect(cfg: Config, s: Sys, t: nat, s': Sys)
    requires MemoryOk(cfg, s) && Ready(s, t) && ExpandGranted(s, t, s')
    ensures Effect(cfg, s, s', t, {}, {})
  {
    var i := s.threads[t].i;
    var r := s.os.Ask(Total(i) * SLOTS_PER_ARENA).0.value;
    ExpandPlaces(cfg, s, t, s', r);
    ExpandSeparate(cfg, s, i, s', r);
    GrownHeapOk(s, s');
    ExpandOthers(s, s', i, r);
    ExpandThread(s, s', t);
    assert s.threads == s.threads[t := s.threads[t]];
  }

  lemma ExpandGrantedKeeps(cfg: Config, s: Sys, t: nat, s': Sys)
    requires Inv(cfg, s) && ExpandGranted(s, t, s')
    ensures Inv(cfg, s') && Quiet(s, s', t)
  {
    IsReady(cfg, s, t);
    ExpandGrantedEffect(cfg, s, t, s');
    Conclude(cfg, s, s', t, {}, {});
  }

  // ---- Critical sections of the general path -------------------------------------------------------

  /** The arenas of h' are those of h, with perhaps more carved, and perhaps one more in freshly
      mapped memory. */
  ghost predicate ArenasGrow(s: Sys, s': Sys) {
    forall k | 0 <= k < |s'.heap.arenas| ::
      var arena := s'.heap.arenas[k];
      && arena.size <= s'.os.largest
      && ((k < |s.heap.arenas| && arena.base == s.heap.arenas[k].base && arena.size == s.heap.arenas[k].size)
          || WordsOf(Region(arena.base, arena.size)) !! s.os.mapped)
  }

  /** What every critical section of the general path leaves behind. */
  ghost predicate GeneralStepOf(s: Sys, s': Sys, except: set<int>) {
    && s'.sl == s.sl && GeneralWrites(s, s'.heap, s'.words, s'.head, s'.os.mapped, except)
    && Valid(s'.heap) && HL.MappedBy(s'.heap, s'.os)
    && s.os.mapped <= s'.os.mapped && s'.os.largest == s.os.largest && ArenasGrow(s, s')
  }

  lemma HeaderUnwritten(cfg: Config, s: Sys, s': Sys, except: set<int>, i: nat, x: int, w: int)
    requires MemoryOk(cfg, s) && GeneralStepOf(s, s', except) && IsSlot(s.sl, i, x)
    requires x <= w < x + Total(i) && w in s.words
    ensures w in s'.words && s'.words[w] == s.words[w]
  {
    if k :| 0 <= k < |s.heap.arenas| && s.heap.arenas[k].base <= w < s.heap.arenas[k].base + s.heap.arenas[k].size {
      SlotClearOfArena(cfg, s, i, x, k);
    }
    assert !GP.InArenas(s.heap.arenas, w);
  }

  lemma GeneralSeparate(s: Sys, s': Sys)
    requires Separate(s) && s'.sl == s.sl && ArenasGrow(s, s')
    requires forall i, x {:trigger Mapped(s.os.mapped, i, x)} | IsSlot(s.sl, i, x) :: Mapped(s.os.mapped, i, x)
    ensures Separate(s')
  {
    forall i, x, k | IsSlot(s'.sl, i, x) && 0 <= k < |s'.heap.arenas| ensures SlotAside(s'.heap, i, x, k) {
      assert Mapped(s.os.mapped, i, x);
      assert k < |s.heap.arenas| ==> SlotAside(s.heap, i, x, k);
    }
  }

  lemma GeneralMemory(cfg: Config, s: Sys, s': Sys, except: set<int>)
    requires MemoryOk(cfg, s) && GeneralStepOf(s, s', except)
    ensures MemoryOk(cfg, s')
  {
    forall i, x | IsSlot(s.sl, i, x) && x in s.words ensures x in s'.words && s'.words[x] == s.words[x] {
      SlotWord(s.sl, s.words, s.os.mapped, i, x);
      HeaderUnwritten(cfg, s, s', except, i, x, x);
    }
    WordsKeep(cfg.addr, s.sl, s.words, s'.words, s.os.mapped, s'.os.mapped);
    GeneralSeparate(s, s');
  }

  /** A live pointer whose block, if it has one, is still live and not excepted keeps its
      payload. */
  lemma GeneralKept(cfg: Config, s: Sys, s': Sys, except: set<int>, p: int)
    requires MemoryOk(cfg, s) && GeneralStepOf(s, s', except) && PtrLive(s, p)
    requires p - HEADER !in s.sl.live ==> p - HEADER !in except && HL.StillLive(s.heap, s'.heap, p - HEADER)
    ensures Kept(s, s', p)
  {
    var a := p - HEADER;
    if a in s.sl.live {
      assert LiveOk(cfg.addr, s.sl, s.words, a);
      SlotIsNoBlock(cfg, s, s.sl.live[a], a);
      forall w | p <= w < p + Cap(s, p) && w in s.words ensures w in s'.words && s'.words[w] == s.words[w] {
        HeaderUnwritten(cfg, s, s', except, s.sl.live[a], a, w);
      }
    } else {
      forall w | p <= w < p + Cap(s, p) && w in s.words ensures w in s'.words && s'.words[w] == s.words[w] {
        assert GP.InPayload(s.heap.blocks, a, w);
      }
    }
  }

  /** Live pointers after a critical section, from live blocks after it. */
  lemma GeneralPointers(cfg: Config, s: Sys, s': Sys, gone: set<int>, born: set<int>)
    requires MemoryOk(cfg, s) && MemoryOk(cfg, s') && s'.sl == s.sl
    requires forall a :: IsLive(s'.heap, a) <==> (IsLive(s.heap, a) && a + HEADER !in gone) || a + HEADER in born
    requires forall p | p in gone :: IsLive(s.heap, p - HEADER)
    requires forall p | p in born :: !IsLive(s.heap, p - HEADER)
    ensures LiveChange(s, s', gone, born)
  {
    forall p
      ensures PtrLive(s', p) <==> (PtrLive(s, p) && p !in gone) || p in born
      ensures p in born ==> !PtrLive(s, p)
    {
      assert p == (p - HEADER) + HEADER;
      if p - HEADER in s.sl.live {
        assert LiveOk(cfg.addr, s.sl, s.words, p - HEADER) && LiveOk(cfg.addr, s'.sl, s'.words, p - HEADER);
        SlotIsNoBlock(cfg, s, s.sl.live[p - HEADER], p - HEADER);
        SlotIsNoBlock(cfg, s', s.sl.live[p - HEADER], p - HEADER);
      }
    }
  }

  /** A critical section of t that keeps every live block but those t owns and frees or
      rewrites is quiet. */
  lemma GeneralQuiet(cfg: Config, s: Sys, s': Sys, t: nat, except: set<int>)
    requires MemoryOk(cfg, s) && GeneralStepOf(s, s', except) && OwnStep(cfg, s, s', t)
    requires MemoryOk(cfg, s')
    requires forall a | IsLive(s.heap, a) && (!Owns(s, t, a + HEADER) ||
                 (IsLive(s'.heap, a) && a + HEADER !in Touched(s.threads[t]))) ::
               a !in except && HL.StillLive(s.heap, s'.heap, a)
    ensures Quiet(s, s', t)
  {
    forall p | Spared(s, s', t, p) ensures Kept(s, s', p) {
      assert p == (p - HEADER) + HEADER;
      GeneralKept(cfg, s, s', except, p);
    }
  }

  lemma CachesSame(s: Sys, s': Sys, t: nat, th: Thread)
    requires CachesOk(s, t, th) && s'.sl == s.sl
    ensures CachesOk(s', t, th)
  {
    forall j ensures CacheOk(s', t, th, j) {
      assert CacheOk(s, t, th, j);
    }
  }

  // ---- my_malloc's critical section ------------------------------------------------------------------

  /** Where the arenas of the new heap come from. */
  lemma AllocateArenas(s: Sys, arenaSize: int, size: int)
    requires HeapOk(s) && LINKS <= size
    requires forall k | 0 <= k < |s.heap.list| :: s.heap.list[k] in s.heap.blocks
    ensures var (h', os', p) := Allocate(s.heap, s.os, arenaSize, size);
            && s.os.mapped <= os'.mapped && os'.largest == s.os.largest
            && ArenasGrow(s, s.(heap := h', os := os'))
  {
    AskGrants(s.os, RequestSize(OVERHEAD + size, arenaSize));
    var (h', os', p) := Allocate(s.heap, s.os, arenaSize, size);
    if FirstFitBlock(s.heap.blocks, s.heap.list, size) != 0 {
      assert h'.arenas == s.heap.arenas;
    } else {
      var (h1, os1, found) := WithRoom(s.heap, s.os, arenaSize, size);
      forall k | 0 <= k < |h'.arenas|
        ensures k < |h1.arenas| && h'.arenas[k].base == h1.arenas[k].base && h'.arenas[k].size == h1.arenas[k].size
      {
      }
    }
  }

  lemma TakeStepOf(cfg: Config, s: Sys, t: nat, s': Sys)
    requires MemoryOk(cfg, s) && GeneralTake(cfg, s, t, s'.words, s') && 4096 < s.threads[t].n
    ensures GeneralStepOf(s, s', {})
    ensures var p := s'.threads[t].result;
            if p == 0 then s'.heap == s.heap else HL.Handed(s.heap, s'.heap, p, AlignUp(s.threads[t].n))
  {
    var size := AlignUp(s.threads[t].n);
    AlignUpExact(s.threads[t].n);
    HL.AllocateMeans(s.heap, s.os, cfg.arenaSize, size);
    AllocateArenas(s, cfg.arenaSize, size);
    var (h', os', p) := Allocate(s.heap, s.os, cfg.arenaSize, size);
    var s1 := s.(heap := h', os := os');
    assert s'.heap == s1.heap && s'.os == s1.os;
  }

  lemma TakeLive(s: Sys, s': Sys, p: int, size: int)
    requires if p == 0 then s'.heap == s.heap else HL.Handed(s.heap, s'.heap, p, size)
    ensures forall a :: IsLive(s'.heap, a) <==> IsLive(s.heap, a) || a + HEADER in NonNull(p)
    ensures forall q | q in NonNull(p) :: !IsLive(s.heap, q - HEADER)
    ensures forall a | IsLive(s.heap, a) :: HL.StillLive(s.heap, s'.heap, a)
  {
    if p != 0 {
      forall a
        ensures IsLive(s'.heap, a) <==> IsLive(s.heap, a) || a + HEADER in NonNull(p)
        ensures IsLive(s.heap, a) ==> HL.StillLive(s.heap, s'.heap, a)
      {
        assert IsLive(s.heap, a) ==> HL.StillLive(s.heap, s'.heap, a);
        assert IsLive(s'.heap, a) && a != p - HEADER ==> HL.StillLive(s.heap, s'.heap, a);
      }
    }
  }

  lemma TakeRegs(s: Sys, s': Sys, th: Thread, at': Label, p: int)
    requires RegsOk(s, th) && th.at.GeneralAlloc? && IsReturning(at')
    requires p != 0 ==> th.n <= Cap(s', p)
    requires th.source != 0 ==> Kept(s, s', th.source)
    ensures RegsOk(s', th.(at := at', result := p))
  {
    if th.source != 0 {
      SourceKept(s, s', th.source, th.data);
    }
  }

  lemma BlockCap(cfg: Config, s: Sys, p: int)
    requires MemoryOk(cfg, s) && p - HEADER in s.heap.blocks
    ensures p - HEADER !in s.sl.live && Cap(s, p) == s.heap.blocks[p - HEADER].size
  {
    if p - HEADER in s.sl.live {
      assert LiveOk(cfg.addr, s.sl, s.words, p - HEADER);
      SlotIsNoBlock(cfg, s, s.sl.live[p - HEADER], p - HEADER);
    }
  }

  lemma TakeThread(cfg: Config, s: Sys, t: nat, th: Thread, s': Sys, th': Thread)
    requires MemoryOk(cfg, s) && GeneralStepOf(s, s', {})
    requires RegsOk(s, th) && CachesOk(s, t, th) && th.at.GeneralAlloc?
    requires th' == th.(at := Leave(GeneralLock(cfg), Returning), result := th'.result)
    requires th.source != 0 ==> PtrLive(s, th.source)
    requires forall a | IsLive(s.heap, a) :: HL.StillLive(s.heap, s'.heap, a)
    requires th'.result != 0 ==> th.n <= Cap(s', th'.result)
    ensures RegsOk(s', th') && CachesOk(s', t, th')
  {
    if th.source != 0 {
      GeneralKept(cfg, s, s', {}, th.source);
    }
    TakeRegs(s, s', th, th'.at, th'.result);
    PlainCaches(s, t, th, th');
    CachesSame(s, s', t, th');
  }

  lemma TakeExchange(cfg: Config, s: Sys, t: nat, s': Sys)
    requires Ready(s, t) && GeneralTake(cfg, s, t, s'.words, s')
    requires forall q | q in NonNull(s'.threads[t].result) :: !PtrLive(s, q)
    ensures OwnStep(cfg, s, s', t) && Exchanged(s, s', t, {}, NonNull(s'.threads[t].result))
    ensures s.threads[t].source != 0 ==> PtrLive(s, s.threads[t].source)
  {
    var th, th' := s.threads[t], s'.threads[t];
    assert th.source != 0 ==> th.source in Regs(th);
    assert th'.result != 0 ==> th'.result in NonNull(th'.result);
  }

  lemma GeneralTakeEffect(cfg: Config, s: Sys, t: nat, s': Sys)
    requires MemoryOk(cfg, s) && Ready(s, t) && GeneralTake(cfg, s, t, s'.words, s')
    ensures Effect(cfg, s, s', t, {}, NonNull(s'.threads[t].result))
  {
    var p := s'.threads[t].result;
    TakeStepOf(cfg, s, t, s');
    TakeLive(s, s', p, AlignUp(s.threads[t].n));
    GeneralMemory(cfg, s, s', {});
    GeneralPointers(cfg, s, s', {}, NonNull(p));
    if p != 0 {
      AlignUpExact(s.threads[t].n);
      BlockCap(cfg, s', p);
    }
    TakeExchange(cfg, s, t, s');
    TakeThread(cfg, s, t, s.threads[t], s', s'.threads[t]);
    GeneralQuiet(cfg, s, s', t, {});
  }

  lemma GeneralTakeKeeps(cfg: Config, s: Sys, t: nat, s': Sys)
    requires Inv(cfg, s) && GeneralTake(cfg, s, t, s'.words, s')
    ensures Inv(cfg, s') && Quiet(s, s', t)
  {
    IsReady(cfg, s, t);
    GeneralTakeEffect(cfg, s, t, s');
    Conclude(cfg, s, s', t, {}, NonNull(s'.threads[t].result));
  }

  // ---- my_free's critical section --------------------------------------------------------------------

  /** A critical section of t that frees the block of its pointer. */
  ghost predicate FreesBlock(cfg: Config, s: Sys, t: nat, s': Sys) {
    && t in s.threads && s.threads[t].at.GeneralFree?
    && var th, a := s.threads[t], s.threads[t].ptr - HEADER;
    && s' == Put(s.(heap := s'.heap, words := s'.words, head := s'.head), t, th.(at := Leave(GeneralLock(cfg), Freed), ptr := 0))
    && IsLive(s.heap, a) && GeneralStepOf(s, s', {a})
    && (forall b :: IsLive(s'.heap, b) <==> IsLive(s.heap, b) && b != a)
    && (forall b | IsLive(s.heap, b) && b != a :: HL.StillLive(s.heap, s'.heap, b))
  }

  lemma ReleaseStepOf(cfg: Config, s: Sys, a: int, s': Sys)
    requires MemoryOk(cfg, s) && IsLive(s.heap, a) && s.heap.blocks[a].arena < |s.heap.arenas|
    requires s'.sl == s.sl && s'.os == s.os && s'.heap == Release(s.heap, a)
    requires GeneralWrites(s, s'.heap, s'.words, s'.head, s.os.mapped, {a})
    ensures GeneralStepOf(s, s', {a})
    ensures forall b :: IsLive(s'.heap, b) <==> IsLive(s.heap, b) && b != a
    ensures forall b | IsLive(s.heap, b) && b != a :: HL.StillLive(s.heap, s'.heap, b)
  {
    HL.ReleaseMeans(s.heap, a);
  }

  lemma ReleaseFrees(cfg: Config, s: Sys, t: nat, s': Sys)
    requires MemoryOk(cfg, s) && GeneralRelease(cfg, s, t, s'.words, s')
    requires IsLive(s.heap, s.threads[t].ptr - HEADER)
    ensures FreesBlock(cfg, s, t, s')
  {
    ReleaseStepOf(cfg, s, s.threads[t].ptr - HEADER, s');
  }

  lemma FreesThread(cfg: Config, s: Sys, t: nat, s': Sys)
    requires MemoryOk(cfg, s) && Ready(s, t) && FreesBlock(cfg, s, t, s')
    ensures RegsOk(s', s'.threads[t]) && CachesOk(s', t, s'.threads[t])
  {
    var th, th' := s.threads[t], s'.threads[t];
    if th.result != 0 {
      assert th.result in Regs(th) && th.result - HEADER != th.ptr - HEADER;
      GeneralKept(cfg, s, s', {th.ptr - HEADER}, th.result);
    }
    PushRegs(s, s', th, th'.at);
    PlainCaches(s, t, th, th');
    CachesSame(s, s', t, th');
  }

  lemma FreesExchange(cfg: Config, s: Sys, t: nat, s': Sys)
    requires Ready(s, t) && FreesBlock(cfg, s, t, s')
    ensures OwnStep(cfg, s, s', t) && Exchanged(s, s', t, {s.threads[t].ptr}, {})
    ensures Owns(s, t, s.threads[t].ptr)
  {
  }

  lemma FreesQuiet(cfg: Config, s: Sys, t: nat, s': Sys)
    requires MemoryOk(cfg, s) && MemoryOk(cfg, s') && FreesBlock(cfg, s, t, s')
    requires OwnStep(cfg, s, s', t) && Owns(s, t, s.threads[t].ptr)
    ensures Quiet(s, s', t)
  {
    var p := s.threads[t].ptr;
    assert Owns(s, t, (p - HEADER) + HEADER);
    GeneralQuiet(cfg, s, s', t, {p - HEADER});
  }

  lemma FreesChange(cfg: Config, s: Sys, t: nat, s': Sys)
    requires MemoryOk(cfg, s) && MemoryOk(cfg, s') && FreesBlock(cfg, s, t, s')
    ensures LiveChange(s, s', {s.threads[t].ptr}, {})
  {
    GeneralPointers(cfg, s, s', {s.threads[t].ptr}, {});
  }

  lemma FreesEffect(cfg: Config, s: Sys, t: nat, s': Sys)
    requires MemoryOk(cfg, s) && Ready(s, t) && FreesBlock(cfg, s, t, s')
    ensures Effect(cfg, s, s', t, {s.threads[t].ptr}, {})
  {
    GeneralMemory(cfg, s, s', {s.threads[t].ptr - HEADER});
    FreesChange(cfg, s, t, s');
    FreesExchange(cfg, s, t, s');
    FreesThread(cfg, s, t, s');
    FreesQuiet(cfg, s, t, s');
  }

  lemma FreesLiveBlock(s: Sys, t: nat)
    requires Ready(s, t) && s.threads[t].at.GeneralFree?
    ensures IsLive(s.heap, s.threads[t].ptr - HEADER)
  {
  }

  lemma GeneralReleaseKeeps(cfg: Config, s: Sys, t: nat, s': Sys)
    requires Inv(cfg, s) && GeneralRelease(cfg, s, t, s'.words, s')
    ensures Inv(cfg, s') && Quiet(s, s', t)
  {
    IsReady(cfg, s, t);
    FreesLiveBlock(s, t);
    ReleaseFrees(cfg, s, t, s');
    FreesEffect(cfg, s, t, s');
    Conclude(cfg, s, s', t, {s.threads[t].ptr}, {});
  }

  // ---- my_realloc's critical section -----------------------------------------------------------------

  /** The block is large enough, or has to be moved: nothing but registers changes. */
  lemma ResizeStays(cfg: Config, s: Sys, t: nat, th: Thread, th': Thread)
    requires MemoryOk(cfg, s) && RegsOk(s, th) && CachesOk(s, t, th) && RegsDistinct(th) && th.at.Resizing?
    requires var size := s.heap.blocks[th.source - HEADER].size;
             th' == if AlignUp(th.n) <= size
                    then th.(at := Leave(GeneralLock(cfg), Returning), result := th.source, source := 0)
                    else th.(at := Leave(GeneralLock(cfg), Calling), size := size)
    ensures Steady(cfg, s, t, th, th')
  {
    var a := th.source - HEADER;
    AlignUpExact(th.n);
    assert BlockAligned(s.heap.blocks, a);
    BlockCap(cfg, s, th.source);
    AlignedBelow(s.heap.blocks[a].size, AlignUp(th.n), th.n);
    PlainCaches(s, t, th, th');
  }

  /** Between two multiples of the alignment lies a whole step. */
  lemma AlignedBelow(size: int, up: int, n: int)
    requires size % ALIGNMENT == 0 && up % ALIGNMENT == 0 && n <= up < n + ALIGNMENT
    ensures size < up ==> size <= n
    ensures up <= size ==> n <= size
  {
  }

  lemma GrowStepOf(cfg: Config, s: Sys, a: int, n: int, s': Sys)
    requires MemoryOk(cfg, s) && IsLive(s.heap, a) && s.heap.blocks[a].arena < |s.heap.arenas|
    requires CanGrow(s.heap, a, n) && s.heap.blocks[a].size < n && n % ALIGNMENT == 0
    requires s'.sl == s.sl && s'.os == s.os && s'.heap == Grow(s.heap, a, n)
    requires GeneralWrites(s, s'.heap, s'.words, s'.head, s.os.mapped, {})
    ensures GeneralStepOf(s, s', {})
    ensures a in s'.heap.blocks && n <= s'.heap.blocks[a].size
    ensures forall b :: IsLive(s'.heap, b) <==> IsLive(s.heap, b)
    ensures forall b | IsLive(s.heap, b) && b != a :: HL.StillLive(s.heap, s'.heap, b)
  {
    HL.GrowMeans(s.heap, a, n);
  }

  /** The grown block still holds, at the same address, the data it held. */
  lemma GrownData(cfg: Config, s: Sys, s': Sys, p: int, data: map<int, int>)
    requires MemoryOk(cfg, s) && MemoryOk(cfg, s') && GeneralStepOf(s, s', {})
    requires IsLive(s.heap, p - HEADER) && p - HEADER in s'.heap.blocks
    requires s.heap.blocks[p - HEADER].size <= s'.heap.blocks[p - HEADER].size
    requires DataAt(s.words, p, data) && data.Keys == Offsets(Cap(s, p))
    ensures DataAt(s'.words, p, data) && data.Keys <= Offsets(Cap(s', p))
  {
    BlockCap(cfg, s, p);
    BlockCap(cfg, s', p);
    forall k | k in data ensures p + k in s'.words && s'.words[p + k] == data[k] {
      assert k in Offsets(Cap(s, p)) && p + k in s.words;
      assert GP.InPayload(s.heap.blocks, p - HEADER, p + k);
    }
  }

  /** Resize in the case that grows the block where it stands. */
  ghost predicate Grows(cfg: Config, s: Sys, t: nat, s': Sys) {
    && t in s.threads && s.threads[t].at.Resizing? && 0 <= s.threads[t].n <= MAX_REQUEST
    && var th := s.threads[t]; var a, n := th.source - HEADER, AlignUp(th.n);
    && IsLive(s.heap, a) && s.heap.blocks[a].arena < |s.heap.arenas|
    && s.heap.blocks[a].size < n && CanGrow(s.heap, a, n)
    && GeneralWrites(s, Grow(s.heap, a, n), s'.words, s'.head, s.os.mapped, {})
    && s' == Put(s.(heap := Grow(s.heap, a, n), words := s'.words, head := s'.head), t,
                 th.(at := Leave(GeneralLock(cfg), Returning), result := th.source, source := 0))
  }

  /** Resize in the other two cases: keep the block, or remember its size and move. */
  ghost predicate Stays(cfg: Config, s: Sys, t: nat, s': Sys) {
    && t in s.threads && s.threads[t].at.Resizing? && 0 <= s.threads[t].n <= MAX_REQUEST
    && var th := s.threads[t]; var a := th.source - HEADER;
    && a in s.heap.blocks && !(s.heap.blocks[a].size < AlignUp(th.n) && RoomBeside(s.heap.blocks, a, AlignUp(th.n)))
    && s' == Put(s, t, if AlignUp(th.n) <= s.heap.blocks[a].size
                       then th.(at := Leave(GeneralLock(cfg), Returning), result := th.source, source := 0)
                       else th.(at := Leave(GeneralLock(cfg), Calling), size := s.heap.blocks[a].size))
  }

  lemma ResizeCases(cfg: Config, s: Sys, t: nat, s': Sys)
    requires Resize(cfg, s, t, s'.words, s') && RegsOk(s, s.threads[t]) && MemoryOk(cfg, s)
    ensures Grows(cfg, s, t, s') || Stays(cfg, s, t, s')
  {
    CanGrowIs(s.heap, s.threads[t].source - HEADER, AlignUp(s.threads[t].n));
  }

  lemma StaysKeeps(cfg: Config, s: Sys, t: nat, s': Sys)
    requires Inv(cfg, s) && Stays(cfg, s, t, s')
    ensures Inv(cfg, s') && Quiet(s, s', t)
  {
    IsReady(cfg, s, t);
    ResizeStays(cfg, s, t, s.threads[t], s'.threads[t]);
    SteadyStep(cfg, s, s', t);
  }

  lemma GrowRegs(s: Sys, s': Sys, th: Thread, at': Label)
    requires RegsOk(s, th) && th.at.Resizing? && IsReturning(at')
    requires th.n <= Cap(s', th.source)
    requires DataAt(s'.words, th.source, th.data) && th.data.Keys <= Offsets(Cap(s', th.source))
    ensures RegsOk(s', th.(at := at', result := th.source, source := 0))
  {
  }

  lemma GrowThread(cfg: Config, s: Sys, t: nat, th: Thread, s': Sys, th': Thread)
    requires MemoryOk(cfg, s) && MemoryOk(cfg, s') && GeneralStepOf(s, s', {})
    requires RegsOk(s, th) && CachesOk(s, t, th) && th.at.Resizing?
    requires th' == th.(at := Leave(GeneralLock(cfg), Returning), result := th.source, source := 0)
    requires var a, n := th.source - HEADER, AlignUp(th.n);
             && s.heap.blocks[a].size < n && a in s'.heap.blocks && n <= s'.heap.blocks[a].size
    ensures RegsOk(s', th') && CachesOk(s', t, th')
  {
    AlignUpExact(th.n);
    GrownData(cfg, s, s', th.source, th.data);
    BlockCap(cfg, s', th.source);
    GrowRegs(s, s', th, th'.at);
    PlainCaches(s, t, th, th');
    CachesSame(s, s', t, th');
  }

  lemma GrowExchange(cfg: Config, s: Sys, t: nat, s': Sys)
    requires Ready(s, t) && Grows(cfg, s, t, s')
    ensures OwnStep(cfg, s, s', t) && Exchanged(s, s', t, {}, {})
  {
  }

  /** What growing in place leaves of the other blocks. */
  ghost predicate GrewOnly(s: Sys, s': Sys, a: int) {
    && (forall b :: IsLive(s'.heap, b) <==> IsLive(s.heap, b))
    && forall b | IsLive(s.heap, b) && b != a :: HL.StillLive(s.heap, s'.heap, b)
  }

  lemma GrowFrame(cfg: Config, s: Sys, t: nat, s': Sys)
    requires MemoryOk(cfg, s) && Grows(cfg, s, t, s')
    ensures GeneralStepOf(s, s', {}) && MemoryOk(cfg, s') && GrewOnly(s, s', s.threads[t].source - HEADER)
    ensures var a := s.threads[t].source - HEADER; a in s'.heap.blocks && AlignUp(s.threads[t].n) <= s'.heap.blocks[a].size
  {
    AlignUpExact(s.threads[t].n);
    GrowStepOf(cfg, s, s.threads[t].source - HEADER, AlignUp(s.threads[t].n), s');
    GeneralMemory(cfg, s, s', {});
  }

  lemma GrowChange(cfg: Config, s: Sys, s': Sys, a: int)
    requires MemoryOk(cfg, s) && MemoryOk(cfg, s') && s'.sl == s.sl && GrewOnly(s, s', a)
    ensures LiveChange(s, s', {}, {})
  {
    GeneralPointers(cfg, s, s', {}, {});
  }

  lemma GrowQuiet(cfg: Config, s: Sys, t: nat, s': Sys)
    requires MemoryOk(cfg, s) && MemoryOk(cfg, s') && GeneralStepOf(s, s', {}) && OwnStep(cfg, s, s', t)
    requires s.threads[t].at.Resizing? && s.threads[t].source != 0 && GrewOnly(s, s', s.threads[t].source - HEADER)
    ensures Quiet(s, s', t)
  {
    var a := s.threads[t].source - HEADER;
    assert Owns(s, t, a + HEADER) && a + HEADER in Touched(s.threads[t]);
    GeneralQuiet(cfg, s, s', t, {});
  }

  lemma GrowEffect(cfg: Config, s: Sys, t: nat, s': Sys)
    requires MemoryOk(cfg, s) && Ready(s, t) && Grows(cfg, s, t, s')
    ensures Effect(cfg, s, s', t, {}, {})
  {
    GrowFrame(cfg, s, t, s');
    GrowChange(cfg, s, s', s.threads[t].source - HEADER);
    GrowThread(cfg, s, t, s.threads[t], s', s'.threads[t]);
    GrowExchange(cfg, s, t, s');
    GrowQuiet(cfg, s, t, s');
  }

  lemma GrowKeeps(cfg: Config, s: Sys, t: nat, s': Sys)
    requires Inv(cfg, s) && Grows(cfg, s, t, s')
    ensures Inv(cfg, s') && Quiet(s, s', t)
  {
    IsReady(cfg, s, t);
    GrowEffect(cfg, s, t, s');
    Conclude(cfg, s, s', t, {}, {});
  }

  lemma ResizeKeeps(cfg: Config, s: Sys, t: nat, s': Sys)
    requires Inv(cfg, s) && Resize(cfg, s, t, s'.words, s')
    ensures Inv(cfg, s') && Quiet(s, s', t)
  {
    IsReady(cfg, s, t);
    ResizeCases(cfg, s, t, s');
    if Grows(cfg, s, t, s') {
      GrowKeeps(cfg, s, t, s');
    } else {
      StaysKeeps(cfg, s, t, s');
    }
  }
}
