/** What a whole pooled call of a single thread does to memory, as a relation between the states
    before and after it. */
module PooledCalls {
  import opened Machine
  import opened BlockTags
  import opened FreeLists
  import opened HeapModel
  import opened Chains
  import opened MemoryPool
  import opened SlotSystem
  import opened Threads
  import opened ThreadInvariant
  import opened ThreadProof
  import opened ThreadSlotProof
  import opened ThreadHeapProof
  import GP = GeneralPath

  /** The only thread of the sequential allocator. */
  const SELF: nat := 0

  /** Only places of class i differ. */
  ghost predicate OtherPlacesSame(s: Sys, s': Sys, i: nat) {
    forall q | q != InPool(i) && q != InCache(SELF, i) :: At(s'.sl, q) == At(s.sl, q)
  }

  /** Slots of class i may have been added, in freshly mapped memory. */
  ghost predicate SlotsGrow(s: Sys, s': Sys, i: nat) {
    && s.os.mapped <= s'.os.mapped && s'.os.largest == s.os.largest
    && (forall j, x | IsSlot(s.sl, j, x) :: IsSlot(s'.sl, j, x))
    && (forall j, x | IsSlot(s'.sl, j, x) && !IsSlot(s.sl, j, x) ::
          j == i && Mapped(s'.os.mapped, i, x) && WordsOf(Region(x, Total(i))) !! s.os.mapped)
    && (forall x, y {:trigger Clear(i, x, i, y)} | IsSlot(s'.sl, i, x) && IsSlot(s'.sl, i, y) :: Clear(i, x, i, y))
  }

  /** The two chains of class i are in order, and hold no live slot. */
  ghost predicate ChainsOk(s: Sys, i: nat) {
    var pool, cache := At(s.sl, InPool(i)), At(s.sl, InCache(SELF, i));
    && Chained(s.words, LinkTo(pool, 0), pool) && Chained(s.words, LinkTo(cache, 0), cache)
    && (forall x | x in pool || x in cache :: IsSlot(s.sl, i, x) && x !in s.sl.live)
    && (forall x | x in pool :: x !in cache)
  }

  /** Slots in `gone` stop being live; slots in `born` start, tagged with their pool. */
  ghost predicate LiveSlots(cfg: Config, s: Sys, s': Sys, i: nat, gone: set<int>, born: set<int>) {
    && (forall x | x in s'.sl.live :: (x in s.sl.live && x !in gone && s'.sl.live[x] == s.sl.live[x]) || x in born)
    && (forall x | x in s.sl.live && x !in gone :: x in s'.sl.live && s'.sl.live[x] == s.sl.live[x])
    && (forall x | x in gone :: x in s.sl.live && s.sl.live[x] == i && x !in s'.sl.live)
    && (forall x | x in born :: x !in s.sl.live && x in s'.sl.live && s'.sl.live[x] == i && IsSlot(s'.sl, i, x)
                               && i < |cfg.addr| && x in s'.words && s'.words[x] == cfg.addr[i])
  }

  /** Only headers of free slots of class i, and of those just freed, are written. */
  ghost predicate FreeHeadersOnly(s: Sys, s': Sys, i: nat, gone: set<int>) {
    && (forall w | w in s.words :: w in s'.words)
    && forall w | w in s.words && s'.words[w] != s.words[w] :: IsSlot(s.sl, i, w) && (w !in s.sl.live || w in gone)
  }

  /** A slot of class i is live or in one of its chains. */
  ghost predicate Accounted(s: Sys, i: nat) {
    forall x | IsSlot(s.sl, i, x) ::
      x in At(s.sl, InPool(i)) || x in At(s.sl, InCache(SELF, i)) || (x in s.sl.live && s.sl.live[x] == i)
  }

  /** Slots are nowhere but in pools, in this thread's caches, and with clients. */
  ghost predicate Sequential(s: Sys) {
    forall q {:trigger At(s.sl, q)} | At(s.sl, q) != [] ::
      q.i < CLASSES && (q == InPool(q.i) || q == InCache(SELF, q.i))
  }

  ghost predicate PooledCall(cfg: Config, s: Sys, s': Sys, i: nat, gone: set<int>, born: set<int>) {
    && i < CLASSES && s'.heap == s.heap && s'.head == s.head && s'.words.Keys == s'.os.mapped
    && OtherPlacesSame(s, s', i) && SlotsGrow(s, s', i) && ChainsOk(s', i)
    && LiveSlots(cfg, s, s', i, gone, born) && FreeHeadersOnly(s, s', i, gone) && Accounted(s', i)
    && forall j | j in s'.sl.carved :: j < CLASSES
  }

  // ---- Memory stays in order ---------------------------------------------------------------------

  lemma CallGeometry(cfg: Config, s: Sys, s': Sys, i: nat, gone: set<int>, born: set<int>)
    requires MemoryOk(cfg, s) && PooledCall(cfg, s, s', i, gone, born)
    ensures Geometry(s'.sl, s'.os.mapped)
  {
    forall j, x | IsSlot(s'.sl, j, x) ensures Mapped(s'.os.mapped, j, x) {
      if IsSlot(s.sl, j, x) {
        assert Mapped(s.os.mapped, j, x);
      }
    }
    forall j, x, k, y | IsSlot(s'.sl, j, x) && IsSlot(s'.sl, k, y) ensures Clear(j, x, k, y) {
      if IsSlot(s.sl, j, x) && IsSlot(s.sl, k, y) {
        assert Clear(j, x, k, y);
      } else if j == i && k == i {
        assert Clear(i, x, i, y);
      } else {
        OldAndNewClear(s, s', i, j, x, k, y);
      }
    }
  }

  lemma OldAndNewClear(s: Sys, s': Sys, i: nat, j: nat, x: int, k: nat, y: int)
    requires Geometry(s.sl, s.os.mapped) && SlotsGrow(s, s', i) && (j != i || k != i)
    requires IsSlot(s'.sl, j, x) && IsSlot(s'.sl, k, y) && !(IsSlot(s.sl, j, x) && IsSlot(s.sl, k, y))
    ensures Clear(j, x, k, y)
  {
    assert IsSlot(s.sl, j, x) ==> Mapped(s.os.mapped, j, x);
    assert IsSlot(s.sl, k, y) ==> Mapped(s.os.mapped, k, y);
    TotalAligned(j);
    TotalAligned(k);
    RegionsApart(Region(x, Total(j)), Region(y, Total(k)));
  }

  lemma CallPlace(cfg: Config, s: Sys, s': Sys, i: nat, gone: set<int>, born: set<int>, q: Place)
    requires MemoryOk(cfg, s) && Sequential(s) && PooledCall(cfg, s, s', i, gone, born)
    ensures PlaceOk(s'.sl, s'.words, q)
    ensures At(s'.sl, q) != [] && q.i == i ==> q == InPool(i) || q == InCache(SELF, i)
  {
    if q != InPool(i) && q != InCache(SELF, i) {
      assert PlaceOk(s.sl, s.words, q) && At(s'.sl, q) == At(s.sl, q);
      forall x | x in At(s.sl, q) ensures x in s.words && s'.words[x] == s.words[x] && x !in s'.sl.live {
        ElsewhereUntouched(cfg, s, s', i, gone, born, q, x);
      }
      ChainedFrame(s.words, s'.words, LinkTo(At(s.sl, q), 0), At(s.sl, q));
    }
  }

  /** Slots of other classes are neither written nor handed out. */
  lemma ElsewhereUntouched(cfg: Config, s: Sys, s': Sys, i: nat, gone: set<int>, born: set<int>, q: Place, x: int)
    requires MemoryOk(cfg, s) && Sequential(s) && PooledCall(cfg, s, s', i, gone, born)
    requires q != InPool(i) && q != InCache(SELF, i) && x in At(s.sl, q)
    ensures x in s.words && s'.words[x] == s.words[x] && x !in s'.sl.live
  {
    assert PlaceOk(s.sl, s.words, q) && q.i != i;
    SlotWord(s.sl, s.words, s.os.mapped, q.i, x);
    if s'.words[x] != s.words[x] {
      OneClass(s.sl, s.os.mapped, i, q.i, x);
    }
    if x in born {
      CallGeometry(cfg, s, s', i, gone, born);
      OneClass(s'.sl, s'.os.mapped, i, q.i, x);
    }
  }

  lemma CallExclusive(cfg: Config, s: Sys, s': Sys, i: nat, gone: set<int>, born: set<int>)
    requires MemoryOk(cfg, s) && Sequential(s) && PooledCall(cfg, s, s', i, gone, born)
    ensures Exclusive(s'.sl)
  {
    CallGeometry(cfg, s, s', i, gone, born);
    forall q, r, x | x in At(s'.sl, q) && x in At(s'.sl, r) ensures q == r {
      CallPlace(cfg, s, s', i, gone, born, q);
      CallPlace(cfg, s, s', i, gone, born, r);
      OneClass(s'.sl, s'.os.mapped, q.i, r.i, x);
      if q.i != i {
        assert At(s'.sl, q) == At(s.sl, q) && At(s'.sl, r) == At(s.sl, r);
      }
    }
  }

  lemma CallPlaces(cfg: Config, s: Sys, s': Sys, i: nat, gone: set<int>, born: set<int>)
    requires MemoryOk(cfg, s) && Sequential(s) && PooledCall(cfg, s, s', i, gone, born)
    ensures PlacesOk(cfg.addr, s'.sl, s'.words, s'.os.mapped) && Sequential(s')
  {
    CallGeometry(cfg, s, s', i, gone, born);
    CallExclusive(cfg, s, s', i, gone, born);
    forall q ensures PlaceOk(s'.sl, s'.words, q) {
      CallPlace(cfg, s, s', i, gone, born, q);
    }
    forall x | x in s'.sl.live ensures LiveOk(cfg.addr, s'.sl, s'.words, x) {
      if x !in born {
        assert LiveOk(cfg.addr, s.sl, s.words, x);
      }
    }
    forall j, x | IsSlot(s'.sl, j, x) ensures Somewhere(s'.sl, j, x) {
      CallSomewhere(cfg, s, s', i, gone, born, j, x);
    }
    forall q | At(s'.sl, q) != [] ensures q.i < CLASSES && (q == InPool(q.i) || q == InCache(SELF, q.i)) {
      if q != InPool(i) && q != InCache(SELF, i) {
        assert At(s'.sl, q) == At(s.sl, q);
      }
    }
  }

  lemma CallSomewhere(cfg: Config, s: Sys, s': Sys, i: nat, gone: set<int>, born: set<int>, j: nat, x: int)
    requires MemoryOk(cfg, s) && Sequential(s) && PooledCall(cfg, s, s', i, gone, born) && IsSlot(s'.sl, j, x)
    ensures Somewhere(s'.sl, j, x)
  {
    if j == i {
      assert x in At(s'.sl, InPool(i)) || x in At(s'.sl, InCache(SELF, i)) || (x in s'.sl.live && s'.sl.live[x] == i);
    } else {
      assert IsSlot(s.sl, j, x) && Somewhere(s.sl, j, x);
      if !(x in s.sl.live && s.sl.live[x] == j) {
        var q: Place :| q.i == j && x in At(s.sl, q);
        assert x in At(s'.sl, q);
      }
    }
  }

  // ---- Everything else stays where it is -----------------------------------------------------------

  lemma CallHeap(cfg: Config, s: Sys, s': Sys, i: nat, gone: set<int>, born: set<int>)
    requires MemoryOk(cfg, s) && PooledCall(cfg, s, s', i, gone, born)
    ensures HeapOk(s') && Separate(s')
  {
    forall w | w in s.words && GP.HeapWord(s.heap, w) ensures w in s'.words && s'.words[w] == s.words[w] {
      var a := GP.HeapWordInBlock(s.heap, w);
      BlockUnwritten(cfg, s, s', i, gone, born, a);
    }
    GP.SpelledFrame(s.words, s'.words, s.head, s.heap);
    forall k | 0 <= k < |s'.heap.arenas|
      ensures WordsOf(Region(s'.heap.arenas[k].base, s'.heap.arenas[k].size)) <= s'.os.mapped
    {
      assert WordsOf(Region(s.heap.arenas[k].base, s.heap.arenas[k].size)) <= s.os.mapped;
    }
    forall j, x, k | IsSlot(s'.sl, j, x) && 0 <= k < |s'.heap.arenas| ensures SlotAside(s'.heap, j, x, k) {
      if IsSlot(s.sl, j, x) {
        assert SlotAside(s.heap, j, x, k);
      } else {
        assert WordsOf(Region(s.heap.arenas[k].base, s.heap.arenas[k].size)) <= s.os.mapped;
      }
    }
  }

  lemma BlockUnwritten(cfg: Config, s: Sys, s': Sys, i: nat, gone: set<int>, born: set<int>, a: int)
    requires MemoryOk(cfg, s) && PooledCall(cfg, s, s', i, gone, born) && a in s.heap.blocks
    ensures forall w | w in s.words && a <= w < Past(a, s.heap.blocks[a]) :: w in s'.words && s'.words[w] == s.words[w]
  {
    forall w | w in s.words && a <= w < Past(a, s.heap.blocks[a]) ensures s'.words[w] == s.words[w] {
      if s'.words[w] != s.words[w] {
        SlotOutsideBlock(cfg, s, i, w, a);
      }
    }
  }

  /** A pooled call keeps memory in order. */
  lemma CallMemory(cfg: Config, s: Sys, s': Sys, i: nat, gone: set<int>, born: set<int>)
    requires MemoryOk(cfg, s) && Sequential(s) && PooledCall(cfg, s, s', i, gone, born)
    ensures MemoryOk(cfg, s') && Sequential(s')
  {
    CallPlaces(cfg, s, s', i, gone, born);
    CallHeap(cfg, s, s', i, gone, born);
  }

  /** Every live pointer but those freed is kept, and liveness changes as said. */
  ghost predicate CallOutcome(s: Sys, s': Sys, gone: set<int>, born: set<int>) {
    && (forall p {:trigger Kept(s, s', p)} | PtrLive(s, p) && p - HEADER !in gone :: Kept(s, s', p))
    && (forall p :: PtrLive(s', p) <==> (PtrLive(s, p) && p - HEADER !in gone) || p - HEADER in born)
  }

  /** It keeps every live pointer but those freed, and changes liveness as it says. */
  lemma CallKeeps(cfg: Config, s: Sys, s': Sys, i: nat, gone: set<int>, born: set<int>)
    requires MemoryOk(cfg, s) && MemoryOk(cfg, s') && PooledCall(cfg, s, s', i, gone, born)
    ensures CallOutcome(s, s', gone, born)
  {
    forall p | PtrLive(s, p) && p - HEADER !in gone ensures Kept(s, s', p) {
      CallKept(cfg, s, s', i, gone, born, p);
    }
    forall p | p - HEADER in gone ensures !PtrLive(s', p) {
      assert LiveOk(cfg.addr, s.sl, s.words, p - HEADER);
      SlotIsNoBlock(cfg, s, i, p - HEADER);
    }
  }

  lemma CallKept(cfg: Config, s: Sys, s': Sys, i: nat, gone: set<int>, born: set<int>, p: int)
    requires MemoryOk(cfg, s) && MemoryOk(cfg, s') && PooledCall(cfg, s, s', i, gone, born)
    requires PtrLive(s, p) && p - HEADER !in gone
    ensures Kept(s, s', p)
  {
    forall w | p <= w < p + Cap(s, p) && w in s.words ensures w in s'.words && s'.words[w] == s.words[w] {
      if s'.words[w] != s.words[w] {
        HeaderOutsidePayload(cfg, s, i, w, p);
      }
    }
    var a := p - HEADER;
    if a !in s.sl.live {
      BlockCap(cfg, s, p);
      BlockCap(cfg, s', p);
    }
  }

  // ---- The calls of a thread's cache -----------------------------------------------------------------

  ghost function CarvedOf(sl: Slots, i: nat): set<int> {
    if i in sl.carved then sl.carved[i] else {}
  }

  /** The slots with class i's part replaced. */
  ghost function Replaced(sl: Slots, i: nat, pool: seq<int>, cache: seq<int>, carved: set<int>, live: map<int, nat>): Slots {
    Slots(sl.chains[InPool(i) := pool][InCache(SELF, i) := cache], sl.carved[i := carved], live)
  }

  /** What a cache reports of a call on class i: its part of the slots, and what it wrote. */
  ghost predicate CacheReports(s: Sys, s': Sys, i: nat, pool: seq<int>, cache: seq<int>, carved: set<int>) {
    && s'.heap == s.heap && s'.head == s.head && s'.os.largest == s.os.largest && s'.words.Keys == s'.os.mapped
    && (forall w | w in s.words :: w in s'.words)
    && CarvedOf(s.sl, i) <= carved
    && (forall x | x in carved && x !in CarvedOf(s.sl, i) ::
          WordsOf(Region(x, Total(i))) !! s.words.Keys && x !in s.words)
    && SlotsOk(s'.words.Keys, carved, Total(i))
    && Chained(s'.words, LinkTo(pool, 0), pool) && Chained(s'.words, LinkTo(cache, 0), cache)
    && (forall x | x in pool || x in cache :: x in carved)
    && (forall x | x in cache :: x !in pool)
  }

  lemma CarvedSlot(sl: Slots, i: nat)
    ensures forall x :: IsSlot(sl, i, x) <==> x in CarvedOf(sl, i)
  {
  }

  lemma ReportsGrow(cfg: Config, s: Sys, s': Sys, i: nat, pool: seq<int>, cache: seq<int>, carved: set<int>, live: map<int, nat>)
    requires MemoryOk(cfg, s) && i < CLASSES && CacheReports(s, s', i, pool, cache, carved)
    requires s'.sl == Replaced(s.sl, i, pool, cache, carved, live)
    ensures SlotsGrow(s, s', i) && OtherPlacesSame(s, s', i)
    ensures forall j | j in s'.sl.carved :: j < CLASSES
  {
    forall j, x | IsSlot(s'.sl, j, x) && !IsSlot(s.sl, j, x)
      ensures j == i && Mapped(s'.os.mapped, i, x) && WordsOf(Region(x, Total(i))) !! s.os.mapped
    {
      assert x in carved && x !in CarvedOf(s.sl, i);
    }
    forall x, y | IsSlot(s'.sl, i, x) && IsSlot(s'.sl, i, y) ensures Clear(i, x, i, y) {
      assert SlotsApart(Total(i), x, y);
    }
    assert forall w | w in s.os.mapped :: w in s.words && w in s'.words;
  }

  /** Who has a slot of class i before the call. */
  lemma WhereBefore(cfg: Config, s: Sys, i: nat, x: int)
    requires MemoryOk(cfg, s) && Sequential(s) && IsSlot(s.sl, i, x)
    ensures x in At(s.sl, InPool(i)) || x in At(s.sl, InCache(SELF, i)) || (x in s.sl.live && s.sl.live[x] == i)
  {
    assert Somewhere(s.sl, i, x);
    if !(x in s.sl.live && s.sl.live[x] == i) {
      var q: Place :| q.i == i && x in At(s.sl, q);
      assert At(s.sl, q) != [];
    }
  }

  /** A slot in a chain of class i, or not yet carved, is not live. */
  lemma NotLive(cfg: Config, s: Sys, i: nat, x: int)
    requires MemoryOk(cfg, s)
    requires x in At(s.sl, InPool(i)) || x in At(s.sl, InCache(SELF, i)) || x !in s.words
    ensures x !in s.sl.live
    ensures x in s.words && (x in At(s.sl, InPool(i)) || x in At(s.sl, InCache(SELF, i))) ==> IsSlot(s.sl, i, x)
  {
    assert PlaceOk(s.sl, s.words, InPool(i)) && PlaceOk(s.sl, s.words, InCache(SELF, i));
    assert x in s.sl.live ==> LiveOk(cfg.addr, s.sl, s.words, x);
  }

  /** The slots of class i are conserved: those in the chains or just handed out are those that
      were in the chains, or are new. */
  ghost predicate Conserves(s: Sys, i: nat, pool: seq<int>, cache: seq<int>, carved: set<int>, ptr: int) {
    forall x :: x in pool || x in cache || (ptr != 0 && x == ptr - SLOT_HEADER) <==>
      x in At(s.sl, InPool(i)) || x in At(s.sl, InCache(SELF, i)) || (x in carved && x !in CarvedOf(s.sl, i))
  }

  lemma ConservedNotLive(cfg: Config, s: Sys, s': Sys, i: nat, pool: seq<int>, cache: seq<int>, carved: set<int>, ptr: int, x: int)
    requires MemoryOk(cfg, s) && CacheReports(s, s', i, pool, cache, carved) && Conserves(s, i, pool, cache, carved, ptr)
    requires x in pool || x in cache || (ptr != 0 && x == ptr - SLOT_HEADER)
    ensures x !in s.sl.live
  {
    if x in At(s.sl, InPool(i)) || x in At(s.sl, InCache(SELF, i)) {
      NotLive(cfg, s, i, x);
    } else {
      assert x in carved && x !in CarvedOf(s.sl, i) && x !in s.words;
      NotLive(cfg, s, i, x);
    }
  }

  /** my_malloc_pooled_stage3 is a pooled call that hands out at most one slot. */
  lemma MallocIsCall(cfg: Config, s: Sys, s': Sys, i: nat, pool: seq<int>, cache: seq<int>, carved: set<int>, ptr: int)
    requires MemoryOk(cfg, s) && Sequential(s) && i < CLASSES
    requires CacheReports(s, s', i, pool, cache, carved) && Conserves(s, i, pool, cache, carved, ptr)
    requires forall w | w in s.words && w !in At(s.sl, InPool(i)) && w !in At(s.sl, InCache(SELF, i)) :: s'.words[w] == s.words[w]
    requires var x := ptr - SLOT_HEADER;
             ptr != 0 ==> x in carved && x !in cache && x !in pool && x in s'.words && s'.words[x] == cfg.addr[i]
    requires s'.sl == Replaced(s.sl, i, pool, cache, carved, if ptr == 0 then s.sl.live else s.sl.live[ptr - SLOT_HEADER := i])
    ensures PooledCall(cfg, s, s', i, {}, if ptr == 0 then {} else {ptr - SLOT_HEADER})
  {
    ReportsGrow(cfg, s, s', i, pool, cache, carved, s'.sl.live);
    CarvedSlot(s.sl, i);
    CarvedSlot(s'.sl, i);
    forall x | x in pool || x in cache || (ptr != 0 && x == ptr - SLOT_HEADER) ensures x !in s.sl.live {
      ConservedNotLive(cfg, s, s', i, pool, cache, carved, ptr, x);
    }
    forall w | w in s.words && s'.words[w] != s.words[w] ensures IsSlot(s.sl, i, w) && w !in s.sl.live {
      NotLive(cfg, s, i, w);
    }
    forall x | IsSlot(s'.sl, i, x)
      ensures x in pool || x in cache || (x in s'.sl.live && s'.sl.live[x] == i)
    {
      if IsSlot(s.sl, i, x) {
        WhereBefore(cfg, s, i, x);
      }
    }
  }

  /** my_free_pooled_stage3 is a pooled call that takes one slot back. */
  lemma FreeIsCall(cfg: Config, s: Sys, s': Sys, i: nat, pool: seq<int>, cache: seq<int>, x: int)
    requires MemoryOk(cfg, s) && Sequential(s) && i < CLASSES && x in s.sl.live && s.sl.live[x] == i
    requires CacheReports(s, s', i, pool, cache, CarvedOf(s.sl, i)) && s'.os.mapped == s.os.mapped
    requires forall y :: y in pool || y in cache <==> y in At(s.sl, InPool(i)) || y in At(s.sl, InCache(SELF, i)) || y == x
    requires forall w | w in s.words && w != x && w !in At(s.sl, InCache(SELF, i)) :: s'.words[w] == s.words[w]
    requires s'.sl == Replaced(s.sl, i, pool, cache, CarvedOf(s.sl, i), s.sl.live - {x})
    ensures PooledCall(cfg, s, s', i, {x}, {})
  {
    ReportsGrow(cfg, s, s', i, pool, cache, CarvedOf(s.sl, i), s'.sl.live);
    CarvedSlot(s.sl, i);
    CarvedSlot(s'.sl, i);
    assert LiveOk(cfg.addr, s.sl, s.words, x);
    forall y | y in pool || y in cache ensures y !in s'.sl.live {
      if y != x {
        NotLive(cfg, s, i, y);
      }
    }
    forall w | w in s.words && s'.words[w] != s.words[w] ensures IsSlot(s.sl, i, w) && (w !in s.sl.live || w in {x}) {
      if w != x {
        NotLive(cfg, s, i, w);
      }
    }
    forall y | IsSlot(s'.sl, i, y) ensures y in pool || y in cache || (y in s'.sl.live && s'.sl.live[y] == i) {
      WhereBefore(cfg, s, i, y);
    }
  }
}
