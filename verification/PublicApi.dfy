/** my_malloc, my_calloc, my_free and my_realloc as one thread calls them in stage 3, over one
    memory shared by the pools, the thread's caches and the general heap. */
module PublicApi {
  import opened Machine
  import opened BlockTags
  import opened FreeLists
  import opened HeapModel
  import opened Chains
  import opened MemoryPool
  import opened SlotSystem
  import opened Threads
  import opened ThreadInvariant
  import opened ThreadProof
  import opened ThreadHeapProof
  import opened ThreadContracts
  import opened PooledCalls
  import opened GeneralCalls
  import opened Bytes
  import GP = GeneralPath
  import TC = ThreadCache
  import HL = HeapLaws
  import CL = CacheLaws

  // ---- The contracts -------------------------------------------------------------------------

  /** Every live pointer outside `except` keeps its size and its payload. */
  ghost predicate AllKept(s: Sys, s': Sys, except: set<int>) {
    forall q {:trigger Kept(s, s', q)} | PtrLive(s, q) && q !in except :: Kept(s, s', q)
  }

  /** The live pointers lose `gone` and gain `born`. */
  ghost predicate LiveBecomes(s: Sys, s': Sys, gone: set<int>, born: set<int>) {
    forall q :: PtrLive(s', q) <==> (PtrLive(s, q) && q !in gone) || q in born
  }

  /** Exactly when my_malloc must fail: for a pooled size, this thread's cache and the pool are
      empty and the system refuses the pool an arena; for a larger one, no listed block fits, the
      last arena lacks room and the system refuses another. */
  ghost predicate Refused(cfg: Config, s: Sys, n: int) {
    var i := ClassFor(n);
    if i < CLASSES then At(s.sl, InCache(SELF, i)) == [] && PoolIsOut(s, i)
    else n <= MAX_REQUEST && HL.NoMemory(s.heap, s.os, cfg.arenaSize, AlignUp(n))
  }

  /** A pointer new to the clients: aligned, with room for n bytes, clear of all live extents. */
  ghost predicate NewPointer(s: Sys, s': Sys, n: int, p: int) {
    && !PtrLive(s, p) && PtrLive(s', p) && p % 16 == 0 && n <= Cap(s', p)
    && forall q | PtrLive(s, q) :: p + Cap(s', p) <= q - HEADER || q + Cap(s, q) <= p - HEADER
  }

  /** my_malloc (section 7.22.3.4 of ISO/IEC 9899:2018): a new pointer, or null exactly when it
      must fail; every other live pointer is kept. */
  ghost predicate Mallocs(cfg: Config, s: Sys, s': Sys, n: int, p: int) {
    && AllKept(s, s', {}) && LiveBecomes(s, s', {}, NonNull(p))
    && (p == 0 <==> Refused(cfg, s, n)) && (p != 0 ==> NewPointer(s, s', n, p))
  }

  /** The pooled path serves every request of class i alike. */
  lemma AnyOfClass(cfg: Config, s: Sys, s': Sys, n: int, i: nat, p: int)
    requires i == ClassFor(n) < CLASSES && Mallocs(cfg, s, s', Payload(i), p)
    ensures Mallocs(cfg, s, s', n, p)
  {
    assert ClassFor(Payload(i)) == i;
  }

  /** my_free (section 7.22.3.3): the pointer stops being live, and every other is kept. */
  ghost predicate Frees(s: Sys, s': Sys, p: int) {
    AllKept(s, s', {p}) && LiveBecomes(s, s', {p}, {})
  }

  lemma FreeDone(s: Sys, s': Sys, p: int)
    requires CallOutcome(s, s', {p - SLOT_HEADER}, {})
    ensures Frees(s, s', p)
  {
    forall q | PtrLive(s, q) && q !in {p} ensures Kept(s, s', q) {
      assert q - HEADER !in {p - SLOT_HEADER};
    }
    forall q ensures PtrLive(s', q) <==> (PtrLive(s, q) && q !in {p}) || q in {} {
      assert q - HEADER in {p - SLOT_HEADER} <==> q == p;
    }
  }

  /** Looking a tag up in the table of pools decides as PoolOf does. */
  lemma RouteIs(cfg: Config, tag: int, i: nat)
    requires |cfg.addr| == CLASSES && forall j, k | 0 <= j < k < CLASSES :: cfg.addr[j] != cfg.addr[k]
    requires i <= CLASSES && (i < CLASSES ==> cfg.addr[i] == tag)
    requires i == CLASSES ==> forall j | 0 <= j < CLASSES :: cfg.addr[j] != tag
    ensures PoolOf(cfg, tag) == if i < CLASSES then Some(i) else None
  {
  }

  /** A write to the payload of p and to nothing else: liveness and sizes stay. */
  ghost predicate Written(s: Sys, s': Sys, p: int) {
    && AllKept(s, s', {p}) && LiveBecomes(s, s', {}, {}) && Cap(s', p) == Cap(s, p)
    && s'.os == s.os && s'.sl == s.sl && s'.heap == s.heap && s'.head == s.head
  }

  // ---- my_realloc's contract -------------------------------------------------------------------

  /** The words of the payload of p in s are found at r in s'. */
  ghost predicate SameData(s: Sys, p: int, s': Sys, r: int) {
    forall k | k in Offsets(Cap(s, p)) :: p + k in s.words && r + k in s'.words && s'.words[r + k] == s.words[p + k]
  }

  /** p keeps its address and its data, and has room for n bytes. */
  ghost predicate Grown(s: Sys, s': Sys, p: int, n: int) {
    && AllKept(s, s', {p}) && LiveBecomes(s, s', {}, {})
    && n <= Cap(s', p) && Cap(s, p) <= Cap(s', p) && SameData(s, p, s', p)
  }

  /** p's data is at r, a new pointer with room for n bytes, and p is gone. */
  ghost predicate Moved(s: Sys, s': Sys, p: int, n: int, r: int) {
    && AllKept(s, s', {p}) && LiveBecomes(s, s', {p}, {r}) && !PtrLive(s, r) && r % 16 == 0
    && n <= Cap(s', r) && SameData(s, p, s', r)
  }

  /** my_realloc (section 7.22.3.5): of null it is my_malloc; it returns the same pointer exactly
      when that can stay; failing, it changes nothing for the clients; and in every case the
      old data survives, at the result or at the old pointer. */
  ghost predicate Reallocs(cfg: Config, s: Sys, s': Sys, p: int, n: int, r: int) {
    if p == 0 then Mallocs(cfg, s, s', n, r)
    else
      && (r == p <==> StaysPut(s, p, n)) && (r == 0 <==> !StaysPut(s, p, n) && Refused(cfg, s, n))
      && if r == 0 then AllKept(s, s', {}) && LiveBecomes(s, s', {}, {})
         else if r == p then Grown(s, s', p, n)
         else Moved(s, s', p, n, r)
  }

  lemma NothingChanged(s: Sys, s': Sys, p: int)
    requires s' == s
    ensures AllKept(s, s', {p}) && LiveBecomes(s, s', {}, {})
  {
    forall q | PtrLive(s, q) && q !in {p} ensures Kept(s, s', q) {
    }
  }

  lemma GrownDone(cfg: Config, s: Sys, s': Sys, p: int, n: int)
    requires MemoryOk(cfg, s) && PtrLive(s, p)
    requires forall q | PtrLive(s, q) && q != p :: Kept(s, s', q)
    requires forall q :: PtrLive(s', q) <==> PtrLive(s, q)
    requires n <= Cap(s', p) && Cap(s, p) <= Cap(s', p)
    requires forall w | p <= w < p + Cap(s, p) && w in s.words :: w in s'.words && s'.words[w] == s.words[w]
    ensures Grown(s, s', p, n)
  {
    LiveNonNull(cfg, s, p);
  }

  lemma KeptTwice(s: Sys, s': Sys, s'': Sys, q: int)
    requires Kept(s, s', q) && Kept(s', s'', q)
    ensures Kept(s, s'', q)
  {
  }

  lemma ReadyToCopy(cfg: Config, s: Sys, s1: Sys, p: int, n: int, r: int)
    requires PtrLive(s, p) && r != 0 && Mallocs(cfg, s, s1, n, r) && Cap(s, p) <= n
    ensures PtrLive(s1, p) && PtrLive(s1, r) && r != p && Cap(s1, p) == Cap(s, p) && Cap(s, p) <= Cap(s1, r)
  {
    assert Kept(s, s1, p) && r in NonNull(r);
  }

  lemma MoveDone(cfg: Config, s: Sys, s1: Sys, s2: Sys, s3: Sys, p: int, n: int, r: int)
    requires MemoryOk(cfg, s) && PtrLive(s, p) && r != 0 && Mallocs(cfg, s, s1, n, r)
    requires Written(s1, s2, r) && Frees(s2, s3, p)
    requires forall k | 0 <= k < Cap(s, p) && k % 8 == 0 ::
               r + k in s2.words && p + k in s1.words && s2.words[r + k] == s1.words[p + k]
    requires Cap(s, p) <= n
    ensures Moved(s, s3, p, n, r)
  {
    assert r in NonNull(r) && r != p;
    assert Kept(s, s1, p) && Kept(s2, s3, r);
    LiveNonNull(cfg, s, p);
    forall q | PtrLive(s, q) && q !in {p} ensures Kept(s, s3, q) {
      assert Kept(s, s1, q) && PtrLive(s1, q) && q != r && PtrLive(s2, q);
      KeptTwice(s, s1, s2, q);
      KeptTwice(s, s2, s3, q);
    }
    forall k | k in Offsets(Cap(s, p)) ensures r + k in s3.words && s3.words[r + k] == s.words[p + k] {
      assert p + k in s.words && r + k in s2.words;
    }
    forall q ensures PtrLive(s3, q) <==> (PtrLive(s, q) && q !in {p}) || q in {r} {
      assert PtrLive(s1, q) <==> PtrLive(s, q) || q == r;
      assert PtrLive(s2, q) == PtrLive(s1, q);
    }
  }

  lemma SlotStays(cfg: Config, s: Sys, p: int, n: int)
    requires MemoryOk(cfg, s) && PtrLive(s, p) && p - HEADER in s.sl.live
    ensures Cap(s, p) == Payload(s.sl.live[p - HEADER]) && (StaysPut(s, p, n) <==> n <= Cap(s, p))
    ensures p != 0 && SameData(s, p, s, p)
  {
    LiveNonNull(cfg, s, p);
  }

  // ---- my_calloc's contract --------------------------------------------------------------------

  ghost predicate Zeroed(words: Words, p: int, n: int) {
    forall a | p <= a < p + n :: ZeroByte(words, a)
  }

  /** my_calloc (section 7.22.3.2): null, and nothing changed, exactly when the product does not
      fit in a word; otherwise my_malloc of the product, with every byte of it zero. */
  ghost predicate Callocs(cfg: Config, s: Sys, s': Sys, count: int, size: int, p: int) {
    if count * size > 0xFFFF_FFFF_FFFF_FFFF then p == 0 && s' == s
    else Mallocs(cfg, s, s', count * size, p) && (p != 0 ==> Zeroed(s'.words, p, count * size))
  }

  /** The division check refuses exactly the products that do not fit in a word. */
  lemma OverflowCheck(count: int, size: int)
    requires 0 <= count && 0 <= size
    ensures (size != 0 && count > 0xFFFF_FFFF_FFFF_FFFF / size) <==> count * size > 0xFFFF_FFFF_FFFF_FFFF
  {
    if size != 0 {
      var q := (WORD_LIMIT - 1) / size;
      assert q * size <= WORD_LIMIT - 1 < q * size + size;
      if count > q {
        MulMonotone(q + 1, count, size);
      } else {
        MulMonotone(count, q, size);
      }
    }
  }

  method ProductOverflows(count: int, size: int) returns (overflows: bool)
    requires 0 <= count && 0 <= size
    ensures overflows <==> WORD_LIMIT <= count * size
  {
    OverflowCheck(count, size);
    overflows := size != 0 && count > (WORD_LIMIT - 1) / size;
  }

  /** Multiplication of two words that does not overflow. */
  method Product(count: int, size: int) returns (total: int)
    requires 0 <= count && 0 <= size && count * size < WORD_LIMIT
    ensures total == count * size && 0 <= total
  {
    MulMonotone(0, count, size);
    total := count * size % WORD_LIMIT;
  }

  lemma MulMonotone(x: int, y: int, z: int)
    requires x <= y && 0 <= z
    ensures x * z <= y * z
  {
  }

  /** Whole words zeroed up to k, and the low bytes of the next one, make n zero bytes. */
  lemma ZeroedBytes(whole: Words, words: Words, p: int, n: int, k: int)
    requires p % ALIGNMENT == 0 && 0 <= k <= n < k + 8 && k % 8 == 0
    requires forall j | 0 <= j < k && j % 8 == 0 :: p + j in whole && whole[p + j] == 0
    requires k < n ==> p + k in whole
    requires words == if k < n then whole[p + k := ClearLow(whole[p + k], n - k)] else whole
    ensures Zeroed(words, p, n)
  {
    forall a | p <= a < p + n ensures ZeroByte(words, a) {
      var b := a - p;
      AlignedIsWord(p);
      WordOf(p, b);
      if b < k {
        BeforeWord(b, k);
        ZeroBytes(b % 8);
      } else {
        InsideWord(b, k);
        ClearedBytes(whole[p + k], n - k, b - k);
      }
    }
  }

  /** The word of byte b of an aligned payload. */
  lemma WordOf(p: int, b: int)
    requires p % 8 == 0
    ensures (p + b) % 8 == b % 8 && (p + b) - (p + b) % 8 == p + (b - b % 8) && (b - b % 8) % 8 == 0
  {
  }

  lemma BeforeWord(b: int, k: int)
    requires 0 <= b < k && k % 8 == 0
    ensures 0 <= b - b % 8 < k && (b - b % 8) % 8 == 0
  {
  }

  lemma InsideWord(b: int, k: int)
    requires k <= b < k + 8 && k % 8 == 0
    ensures b % 8 == b - k
  {
  }

  /** Writing to a new pointer's payload does not make it less new. */
  lemma ZeroedIsNew(cfg: Config, s: Sys, s1: Sys, s2: Sys, n: int, p: int)
    requires p != 0 && Mallocs(cfg, s, s1, n, p) && Written(s1, s2, p)
    ensures Mallocs(cfg, s, s2, n, p)
  {
    forall q | PtrLive(s, q) && q !in {} ensures Kept(s, s2, q) {
      assert Kept(s, s1, q) && PtrLive(s1, q) && q != p;
      KeptTwice(s, s1, s2, q);
    }
    assert forall q :: PtrLive(s2, q) == PtrLive(s1, q);
  }

  /** Between two word offsets lies no other. */
  lemma NextWord(k: int)
    requires k % 8 == 0
    ensures forall j | k < j < k + 8 :: j % 8 != 0
  {
  }

  lemma NewIsApart(cfg: Config, s: Sys, s': Sys, n: int, p: int)
    requires MemoryOk(cfg, s') && AllKept(s, s', {}) && LiveBecomes(s, s', {}, NonNull(p))
    requires p != 0 && !PtrLive(s, p) && n <= Cap(s', p)
    ensures NewPointer(s, s', n, p)
  {
    assert p in NonNull(p);
    LiveNonNull(cfg, s', p);
    forall q | PtrLive(s, q) ensures p + Cap(s', p) <= q - HEADER || q + Cap(s, q) <= p - HEADER {
      assert Kept(s, s', q);
      LiveApart(cfg, s', p, q);
    }
  }

  /** A cache just made for class i, with its pool. */
  ghost predicate NewCache(cfg: Config, m: Memory, i: nat, c: TC.ThreadLocalCache)
    requires i < |cfg.addr|
    reads c, c.pool, m
  {
    && c.mem == m && c.pool.mem == m && c.Valid() && c.cache == [] && c.pool.chain == [] && c.pool.slots == {}
    && c.pool.self == cfg.addr[i] && c.pool.payload == Payload(i)
  }

  lemma EmptyMemory(cfg: Config, s: Sys)
    requires ConfigOk(cfg, s.os) && s.words == map[] && s.os.mapped == {}
    requires s.sl == Slots(map[], map[], map[]) && s.heap == EMPTY_HEAP && s.head == 0
    ensures MemoryOk(cfg, s) && Sequential(s)
  {
    assert forall p :: PlaceOk(s.sl, s.words, p);
  }

  /** The contract of my_malloc, from a pooled call that handed out at most one slot. */
  lemma MallocDone(cfg: Config, s: Sys, s': Sys, i: nat, ptr: int)
    requires i < CLASSES && MemoryOk(cfg, s) && MemoryOk(cfg, s')
    requires var born := if ptr == 0 then {} else {ptr - SLOT_HEADER};
             PooledCall(cfg, s, s', i, {}, born) && CallOutcome(s, s', {}, born)
    requires ptr == 0 <==> At(s.sl, InCache(SELF, i)) == [] && PoolIsOut(s, i)
    ensures Mallocs(cfg, s, s', Payload(i), ptr)
  {
    assert ClassFor(Payload(i)) == i;
    OutcomeKeeps(s, s', ptr);
    if ptr != 0 {
      BornIsNew(cfg, s, s', i, ptr);
      NewIsApart(cfg, s, s', Payload(i), ptr);
    }
  }

  /** The same for the general path. */
  lemma GeneralDone(cfg: Config, s: Sys, s': Sys, n: int, ptr: int)
    requires MemoryOk(cfg, s')
    requires forall q | PtrLive(s, q) :: Kept(s, s', q)
    requires forall q :: PtrLive(s', q) <==> PtrLive(s, q) || q in NonNull(ptr)
    requires ptr != 0 ==> !PtrLive(s, ptr) && n <= Cap(s', ptr)
    requires 4096 < n <= MAX_REQUEST && (ptr == 0 <==> HL.NoMemory(s.heap, s.os, cfg.arenaSize, AlignUp(n)))
    ensures Mallocs(cfg, s, s', n, ptr)
  {
    if ptr != 0 {
      NewIsApart(cfg, s, s', n, ptr);
    }
  }

  lemma BornIsNew(cfg: Config, s: Sys, s': Sys, i: nat, ptr: int)
    requires MemoryOk(cfg, s) && MemoryOk(cfg, s') && PooledCall(cfg, s, s', i, {}, {ptr - SLOT_HEADER})
    ensures !PtrLive(s, ptr) && Cap(s', ptr) == Payload(i)
  {
    var x := ptr - SLOT_HEADER;
    assert x in {x};
    SlotIsNoBlock(cfg, s', i, x);
  }

  lemma OutcomeKeeps(s: Sys, s': Sys, ptr: int)
    requires CallOutcome(s, s', {}, if ptr == 0 then {} else {ptr - SLOT_HEADER})
    ensures AllKept(s, s', {}) && LiveBecomes(s, s', {}, NonNull(ptr))
  {
    forall q ensures PtrLive(s', q) <==> (PtrLive(s, q) && q !in {}) || q in NonNull(ptr) {
      assert q in NonNull(ptr) <==> ptr != 0 && q - HEADER == ptr - SLOT_HEADER;
    }
  }

  // ---- The allocator -------------------------------------------------------------------------

  class Allocator {
    const cfg: Config
    const mem: Memory
    const general: GP.GeneralHeap
    /** This thread's cache for each size class, each with its pool. */
    const caches: seq<TC.ThreadLocalCache>
    ghost var sl: Slots

    ghost function Repr(): (objects: set<object>)
      ensures forall i | 0 <= i < |caches| :: caches[i] in objects && caches[i].pool in objects
    {
      {this, mem, general, general.free}
      + (set i | 0 <= i < |caches| :: caches[i] as object)
      + (set i | 0 <= i < |caches| :: caches[i].pool as object)
    }

    ghost predicate WiredAt(i: nat)
      requires i < |caches| && i < |cfg.addr|
    {
      var c := caches[i];
      && c.mem == mem && c.pool.mem == mem
      && c.pool.self == cfg.addr[i] && c.pool.payload == Payload(i) && c.pool.total == Total(i)
    }

    ghost predicate Distinct(i: nat, j: nat)
      requires i < |caches| && j < |caches|
    {
      i != j ==> caches[i] != caches[j] && caches[i].pool != caches[j].pool
    }

    ghost predicate Wired() {
      && cfg.stage == 3 && |cfg.addr| == CLASSES && |caches| == CLASSES
      && general.mem == mem && general.free.mem == mem && general.arenaSize == cfg.arenaSize
      && (forall i {:trigger WiredAt(i)} | 0 <= i < CLASSES :: WiredAt(i))
      && (forall i, j {:trigger Distinct(i, j)} | 0 <= i < CLASSES && 0 <= j < CLASSES :: Distinct(i, j))
    }

    /** Head, tail and count registers agree with the chains. */
    ghost predicate HeadsOk(i: nat)
      requires i < |caches|
      reads caches[i], caches[i].pool
    {
      var c := caches[i];
      && c.pool.freeHead == LinkTo(c.pool.chain, 0) && c.head == LinkTo(c.cache, 0)
      && c.tail == Last(c.cache) && c.count == |c.cache| <= TC.CAP
    }

    ghost predicate Tied(i: nat)
      requires i < |caches|
      reads this, caches[i], caches[i].pool
    {
      && At(sl, InPool(i)) == caches[i].pool.chain && At(sl, InCache(SELF, i)) == caches[i].cache
      && CarvedOf(sl, i) == caches[i].pool.slots
    }

    /** The state as a value. */
    ghost function Snap(): Sys
      reads Repr()
    {
      Sys(map[], map[], mem.words, mem.System(), sl, general.Model(), {}, general.free.head)
    }

    ghost predicate Valid()
      reads Repr()
    {
      && Wired()
      && ClassesOk()
      && MemoryOk(cfg, Snap()) && Sequential(Snap())
    }

    static method NewCaches(cfg: Config, m: Memory) returns (cs: seq<TC.ThreadLocalCache>)
      requires |cfg.addr| == CLASSES
      ensures |cs| == CLASSES
      ensures forall k | 0 <= k < CLASSES :: fresh(cs[k]) && fresh(cs[k].pool) && NewCache(cfg, m, k, cs[k])
      ensures forall j, k | 0 <= j < k < CLASSES :: cs[j] != cs[k] && cs[j].pool != cs[k].pool
    {
      cs := [];
      for i := 0 to CLASSES
        invariant |cs| == i
        invariant forall k | 0 <= k < i :: fresh(cs[k]) && fresh(cs[k].pool) && NewCache(cfg, m, k, cs[k])
        invariant forall j, k | 0 <= j < k < i :: cs[j] != cs[k] && cs[j].pool != cs[k].pool
      {
        TotalAligned(i);
        var pool := new Pool(m, cfg.addr[i], Payload(i));
        var c := new TC.ThreadLocalCache(pool);
        cs := cs + [c];
      }
    }

    constructor (cfg: Config, largest: int, answers: seq<int>)
      requires cfg.stage == 3 && ConfigOk(cfg, Os({}, largest, answers))
      ensures Valid() && this.cfg == cfg && fresh(mem) && fresh(general) && fresh(general.free)
      ensures forall i | 0 <= i < |caches| :: fresh(caches[i]) && fresh(caches[i].pool)
      ensures mem.words == map[] && mem.System() == Os({}, largest, answers)
      ensures forall p :: !PtrLive(Snap(), p)
    {
      var m := new Memory(largest, answers);
      var cs := NewCaches(cfg, m);
      this.cfg := cfg;
      mem := m;
      general := new GP.GeneralHeap(m, cfg.arenaSize);
      caches := cs;
      sl := Slots(map[], map[], map[]);
      new;
      EmptyIsValid();
    }

    /** Before the first call. */
    lemma EmptyIsValid()
      requires cfg.stage == 3 && ConfigOk(cfg, mem.System()) && |caches| == CLASSES && mem.words == map[]
      requires general.mem == mem && general.free.mem == mem && general.arenaSize == cfg.arenaSize
      requires general.Model() == EMPTY_HEAP && general.free.head == 0 && sl == Slots(map[], map[], map[])
      requires forall k | 0 <= k < CLASSES :: NewCache(cfg, mem, k, caches[k])
      requires forall j, k | 0 <= j < k < CLASSES :: caches[j] != caches[k] && caches[j].pool != caches[k].pool
      ensures Valid() && forall p :: !PtrLive(Snap(), p)
    {
      forall i | 0 <= i < CLASSES ensures WiredAt(i) && HeadsOk(i) && Tied(i) {
        assert NewCache(cfg, mem, i, caches[i]);
      }
      EmptyMemory(cfg, Snap());
    }

    lemma GeneralReady()
      requires Valid()
      ensures general.Valid()
    {
      forall i | 0 <= i < |general.arenas|
        ensures WordsOf(Region(general.arenas[i].base, general.arenas[i].size)) <= mem.words.Keys
      {
        assert WordsOf(Region(Snap().heap.arenas[i].base, Snap().heap.arenas[i].size)) <= Snap().os.mapped;
      }
    }

    lemma CacheReady(i: nat)
      requires Valid() && i < CLASSES
      ensures caches[i].Valid() && CarvedOf(sl, i) == caches[i].pool.slots
    {
      var c, s := caches[i], Snap();
      assert WiredAt(i) && HeadsOk(i) && Tied(i);
      assert PlaceOk(s.sl, s.words, InPool(i)) && PlaceOk(s.sl, s.words, InCache(SELF, i));
      TotalAligned(i);
      CarvedSlot(sl, i);
      forall x | x in c.pool.slots ensures 0 < x && x % ALIGNMENT == 0 && WordsOf(Region(x, Total(i))) <= mem.words.Keys {
        assert Mapped(s.os.mapped, i, x);
      }
      forall x, y | x in c.pool.slots && y in c.pool.slots ensures SlotsApart(Total(i), x, y) {
        assert Clear(i, x, i, y);
      }
    }

    // ---- Calls on one class ------------------------------------------------------------------

    ghost predicate ClassesOk()
      requires |caches| == CLASSES
      reads Repr()
    {
      && (forall i {:trigger HeadsOk(i)} | 0 <= i < CLASSES :: HeadsOk(i))
      && (forall i {:trigger Tied(i)} | 0 <= i < CLASSES :: Tied(i))
    }

    /** A pooled call that began in state s, put together. */
    lemma CallDone(s: Sys, i: nat, gone: set<int>, born: set<int>)
      requires Wired() && ClassesOk()
      requires MemoryOk(cfg, s) && Sequential(s) && PooledCall(cfg, s, Snap(), i, gone, born)
      ensures Valid() && CallOutcome(s, Snap(), gone, born)
    {
      CallMemory(cfg, s, Snap(), i, gone, born);
      CallKeeps(cfg, s, Snap(), i, gone, born);
    }

    lemma CachePositive(i: nat)
      requires i < |caches| && caches[i].Valid()
      ensures CL.ChainsPositive(caches[i].Model())
    {
      var c := caches[i];
      forall k | 0 <= k < |c.cache| ensures 0 < c.cache[k] {
        assert LinkOk(c.mem.words, c.cache, k);
      }
      forall k | 0 <= k < |c.pool.chain| ensures 0 < c.pool.chain[k] {
        assert LinkOk(c.mem.words, c.pool.chain, k);
      }
    }

    /** The cache of class i answers null exactly when it and its pool are out of slots. */
    lemma NullWhenOut(i: nat)
      requires Valid() && i < CLASSES
      ensures 0 < Total(i)
      ensures TC.Malloc(caches[i].Model(), Total(i)).0 == 0 <==>
                At(sl, InCache(SELF, i)) == [] && PoolIsOut(Snap(), i)
    {
      CacheReady(i);
      assert WiredAt(i) && Tied(i);
      TotalAligned(i);
      CachePositive(i);
      CL.NullIsRefusal(caches[i].Model(), Total(i));
    }

    // ---- my_malloc -------------------------------------------------------------------------

    /** The call on the cache of class i itself; `sl` still has to follow. */
    method AskCache(i: nat) returns (ptr: int)
      requires Valid() && i < CLASSES
      modifies caches[i], caches[i].pool, mem
      ensures caches[i].Valid() && caches[i].OnlyFreeTouched()
      ensures Conserves(old(Snap()), i, caches[i].pool.chain, caches[i].cache, caches[i].pool.slots, ptr)
      ensures var x := ptr - SLOT_HEADER;
              ptr != 0 ==> && x in caches[i].pool.slots && x !in caches[i].cache && x !in caches[i].pool.chain
                           && x in mem.words && mem.words[x] == cfg.addr[i]
      ensures ptr == 0 <==> At(old(sl), InCache(SELF, i)) == [] && PoolIsOut(old(Snap()), i)
    {
      CacheReady(i);
      assert WiredAt(i) && Tied(i);
      NullWhenOut(i);
      ptr := caches[i].MallocPooled();
    }

    /** The call on class i with `sl` brought up to date; every other class is as it was. */
    method CallMalloc(i: nat) returns (ptr: int)
      requires Valid() && i < CLASSES
      modifies this`sl, caches[i], caches[i].pool, mem
      ensures ClassesOk()
      ensures var s, c := old(Snap()), caches[i];
              && CacheReports(s, Snap(), i, c.pool.chain, c.cache, c.pool.slots)
              && Conserves(s, i, c.pool.chain, c.cache, c.pool.slots, ptr)
              && (forall w | w in s.words && w !in At(s.sl, InPool(i)) && w !in At(s.sl, InCache(SELF, i)) ::
                    mem.words[w] == s.words[w])
              && (var x := ptr - SLOT_HEADER;
                  ptr != 0 ==> x in c.pool.slots && x !in c.cache && x !in c.pool.chain && x in mem.words && mem.words[x] == cfg.addr[i])
              && (ptr == 0 <==> At(s.sl, InCache(SELF, i)) == [] && PoolIsOut(s, i))
              && sl == Replaced(s.sl, i, c.pool.chain, c.cache, c.pool.slots,
                                if ptr == 0 then s.sl.live else s.sl.live[ptr - SLOT_HEADER := i])
    {
      assert WiredAt(i) && Tied(i);
      ptr := AskCache(i);
      sl := Replaced(sl, i, caches[i].pool.chain, caches[i].cache, caches[i].pool.slots,
                     if ptr == 0 then sl.live else sl.live[ptr - SLOT_HEADER := i]);
      forall j | 0 <= j < CLASSES ensures HeadsOk(j) && Tied(j) {
        assert Distinct(i, j) && old(HeadsOk(j)) && old(Tied(j));
      }
    }

    /** my_malloc for size class i: from this thread's cache, refilled when empty. */
    method MallocPooled(i: nat) returns (ptr: int)
      requires Valid() && i < CLASSES
      modifies this`sl, caches[i], caches[i].pool, mem
      ensures Valid() && Mallocs(cfg, old(Snap()), Snap(), Payload(i), ptr)
    {
      ghost var s := Snap();
      ptr := CallMalloc(i);
      ghost var c := caches[i];
      MallocIsCall(cfg, s, Snap(), i, c.pool.chain, c.cache, c.pool.slots, ptr);
      CallDone(s, i, {}, if ptr == 0 then {} else {ptr - SLOT_HEADER});
      MallocDone(cfg, s, Snap(), i, ptr);
    }

    /** my_malloc for a request no size class serves. */
    method MallocGeneral(size: int) returns (ptr: int)
      requires Valid() && 4096 < size <= MAX_REQUEST
      modifies general, general.free, mem
      ensures Valid() && Mallocs(cfg, old(Snap()), Snap(), size, ptr)
    {
      ghost var s := Snap();
      GeneralReady();
      ptr := general.Malloc(size);
      MallocCall(cfg, s, Snap(), size, ptr);
      GeneralDone(cfg, s, Snap(), size, ptr);
    }

    method MyMalloc(size: int) returns (ptr: int)
      requires Valid() && 0 <= size <= MAX_REQUEST
      modifies Repr()
      ensures Valid() && Mallocs(cfg, old(Snap()), Snap(), size, ptr)
    {
      var i := ClassFor(size);
      if i < CLASSES {
        ghost var s := Snap();
        ptr := MallocPooled(i);
        AnyOfClass(cfg, s, Snap(), size, i, ptr);
      } else {
        ptr := MallocGeneral(size);
      }
    }

    // ---- my_free ---------------------------------------------------------------------------

    /** The call on the cache of class i itself; `sl` still has to follow. */
    method GiveToCache(i: nat, x: int)
      requires Valid() && i < CLASSES && x in sl.live && sl.live[x] == i
      modifies caches[i], caches[i].pool, mem
      ensures caches[i].Valid() && caches[i].pool.slots == old(caches[i].pool.slots)
      ensures mem.words.Keys == old(mem.words.Keys) && mem.System() == old(mem.System())
      ensures forall y :: y in caches[i].pool.chain || y in caches[i].cache
                <==> y in old(caches[i].pool.chain) || y in old(caches[i].cache) || y == x
      ensures forall w | w in mem.words && w != x && w !in old(caches[i].cache) :: mem.words[w] == old(mem.words)[w]
    {
      CacheReady(i);
      assert WiredAt(i) && Tied(i);
      assert LiveOk(cfg.addr, sl, mem.words, x);
      assert PlaceOk(sl, mem.words, InPool(i)) && PlaceOk(sl, mem.words, InCache(SELF, i));
      CarvedSlot(sl, i);
      CL.FreeConserves(caches[i].Model(), x);
      caches[i].FreePooled(x);
    }

    /** my_free for a slot of class i: back to this thread's cache, which may flush. */
    method FreePooled(i: nat, ptr: int)
      requires Valid() && i < CLASSES && ptr - SLOT_HEADER in sl.live && sl.live[ptr - SLOT_HEADER] == i
      modifies this`sl, caches[i], caches[i].pool, mem
      ensures Valid() && Frees(old(Snap()), Snap(), ptr)
    {
      ghost var s := Snap();
      assert WiredAt(i) && Tied(i);
      GiveToCache(i, ptr - SLOT_HEADER);
      ghost var c := caches[i];
      sl := Replaced(sl, i, c.pool.chain, c.cache, c.pool.slots, sl.live - {ptr - SLOT_HEADER});
      forall j | 0 <= j < CLASSES ensures HeadsOk(j) && Tied(j) {
        assert Distinct(i, j) && old(HeadsOk(j)) && old(Tied(j));
      }
      FreeIsCall(cfg, s, Snap(), i, c.pool.chain, c.cache, ptr - SLOT_HEADER);
      CallDone(s, i, {ptr - SLOT_HEADER}, {});
      FreeDone(s, Snap(), ptr);
    }

    /** my_free for a block of the general path. */
    method FreeGeneral(ptr: int)
      requires Valid() && IsLive(Snap().heap, ptr - HEADER)
      modifies general, general.free, mem
      ensures Valid() && Frees(old(Snap()), Snap(), ptr)
    {
      ghost var s := Snap();
      GeneralReady();
      general.Free(ptr);
      FreeCall(cfg, s, Snap(), ptr);
    }

    /** is_known_pool, over the fixed table of pools: the index of the pool at this address. */
    method KnownPool(tag: int) returns (i: nat)
      requires |cfg.addr| == CLASSES
      ensures i <= CLASSES
      ensures i < CLASSES ==> cfg.addr[i] == tag
      ensures i == CLASSES ==> forall j | 0 <= j < CLASSES :: cfg.addr[j] != tag
    {
      i := 0;
      while i < CLASSES
        invariant i <= CLASSES
        invariant forall j | 0 <= j < i :: cfg.addr[j] != tag
      {
        if cfg.addr[i] == tag {
          return;
        }
        i := i + 1;
      }
    }

    /** The path of a live pointer, from the word before its payload. */
    method RouteOf(ptr: int) returns (i: nat)
      requires Valid() && PtrLive(Snap(), ptr)
      ensures if i < CLASSES then ptr - SLOT_HEADER in sl.live && sl.live[ptr - SLOT_HEADER] == i
              else ptr - SLOT_HEADER !in sl.live && IsLive(Snap().heap, ptr - HEADER)
    {
      TagRoutes(cfg, Snap(), ptr);
      i := KnownPool(mem.words[ptr - HEADER]);
      RouteIs(cfg, mem.words[ptr - HEADER], i);
    }

    method MyFree(ptr: int)
      requires Valid() && (ptr != 0 ==> PtrLive(Snap(), ptr))
      modifies Repr()
      ensures Valid()
      ensures if ptr == 0 then Snap() == old(Snap()) else Frees(old(Snap()), Snap(), ptr)
    {
      if ptr == 0 {
        return;
      }
      var i := RouteOf(ptr);
      if i < CLASSES {
        FreePooled(i, ptr);
      } else {
        FreeGeneral(ptr);
      }
    }

    // ---- Writing payloads ------------------------------------------------------------------

    /** A write to the payload of p, put together. */
    lemma PayloadDone(s: Sys, p: int)
      requires Wired() && ClassesOk() && MemoryOk(cfg, s) && Sequential(s) && PtrLive(s, p)
      requires Snap() == s.(words := mem.words, os := mem.System()) && mem.System() == s.os
      requires PayloadOnly(s, mem.words, p)
      ensures Valid() && Written(s, Snap(), p)
    {
      PayloadMemory(cfg, s, Snap(), p);
      forall q | PtrLive(s, q) && q !in {p} ensures Kept(s, Snap(), q) {
        PayloadKept(cfg, s, Snap(), p, q);
      }
      assert forall q :: PtrLive(Snap(), q) == PtrLive(s, q);
    }

    /** memcpy between two live payloads, of whole words. */
    method CopyTo(target: int, source: int, n: int)
      requires Valid() && PtrLive(Snap(), target) && PtrLive(Snap(), source) && target != source
      requires 0 <= n <= Cap(Snap(), target) && n <= Cap(Snap(), source) && n % 8 == 0
      modifies mem`words
      ensures Valid() && Written(old(Snap()), Snap(), target)
      ensures forall k | 0 <= k < n && k % 8 == 0 ::
                && target + k in mem.words && source + k in old(mem.words)
                && mem.words[target + k] == old(mem.words)[source + k]
    {
      ghost var s := Snap();
      LiveNonNull(cfg, s, target);
      LiveNonNull(cfg, s, source);
      LiveApart(cfg, s, target, source);
      forall j | 0 <= j < n && j % 8 == 0 ensures target + j in s.words && source + j in s.words {
        assert j in Offsets(Cap(s, target)) && j in Offsets(Cap(s, source));
      }
      var k := 0;
      while k < n
        invariant 0 <= k <= n && k % 8 == 0
        invariant PayloadOnly(s, mem.words, target)
        invariant forall j | 0 <= j < k && j % 8 == 0 ::
                    target + j in mem.words && source + j in s.words && mem.words[target + j] == s.words[source + j]
      {
        mem.Store(target + k, mem.words[source + k]);
        EightsAdd(k, 8);
        NextWord(k);
        k := k + 8;
      }
      PayloadDone(s, target);
    }

    // ---- my_realloc ------------------------------------------------------------------------

    /** The part of my_realloc that runs under the general lock. */
    method ResizeGeneral(ptr: int, newSize: int) returns (kept: bool, oldSize: int)
      requires Valid() && IsLive(Snap().heap, ptr - HEADER) && 0 <= newSize <= MAX_REQUEST
      modifies general, general.free, mem
      ensures Valid() && oldSize == Cap(old(Snap()), ptr) && mem.System() == old(mem.System())
      ensures kept <==> StaysPut(old(Snap()), ptr, newSize)
      ensures kept ==> Grown(old(Snap()), Snap(), ptr, newSize)
      ensures !kept ==> Snap() == old(Snap()) && oldSize <= newSize
    {
      ghost var s := Snap();
      GeneralReady();
      kept, oldSize := general.ResizeInPlace(ptr, newSize);
      BlockCap(cfg, s, ptr);
      AlignUpExact(newSize);
      assert BlockAligned(s.heap.blocks, ptr - HEADER);
      AlignedBelow(oldSize, AlignUp(newSize), newSize);
      LiveNonNull(cfg, s, ptr);
      if kept && AlignUp(newSize) > oldSize {
        GrowCall(cfg, s, Snap(), ptr, newSize);
        GrownDone(cfg, s, Snap(), ptr, newSize);
      } else {
        assert Snap() == s;
        NothingChanged(s, Snap(), ptr);
      }
    }

    /** allocate, copy and free: how my_realloc moves a payload. */
    method Move(ptr: int, oldSize: int, newSize: int) returns (moved: int)
      requires Valid() && PtrLive(Snap(), ptr) && oldSize == Cap(Snap(), ptr) <= newSize <= MAX_REQUEST
      modifies Repr()
      ensures Valid()
      ensures moved == 0 ==> AllKept(old(Snap()), Snap(), {}) && LiveBecomes(old(Snap()), Snap(), {}, {})
      ensures moved == 0 <==> Refused(cfg, old(Snap()), newSize)
      ensures moved != 0 ==> Moved(old(Snap()), Snap(), ptr, newSize, moved)
    {
      ghost var s := Snap();
      CapAligned(cfg, s, ptr);
      AlignedIsWord(oldSize);
      LiveNonNull(cfg, s, ptr);
      moved := MyMalloc(newSize);
      ghost var s1 := Snap();
      if moved == 0 {
        return;
      }
      ReadyToCopy(cfg, s, s1, ptr, newSize, moved);
      var copied := if oldSize < newSize then oldSize else newSize;
      CopyTo(moved, ptr, copied);
      ghost var s2 := Snap();
      assert copied == Cap(s, ptr) && PtrLive(s2, ptr);
      MyFree(ptr);
      MoveDone(cfg, s, s1, s2, Snap(), ptr, newSize, moved);
    }

    method MyRealloc(ptr: int, newSize: int) returns (result: int)
      requires Valid() && (ptr != 0 ==> PtrLive(Snap(), ptr)) && 0 <= newSize <= MAX_REQUEST
      modifies Repr()
      ensures Valid() && Reallocs(cfg, old(Snap()), Snap(), ptr, newSize, result)
    {
      if ptr == 0 {
        result := MyMalloc(newSize);
        return;
      }
      ghost var s := Snap();
      var i := RouteOf(ptr);
      if i < CLASSES {
        SlotStays(cfg, s, ptr, newSize);
        assert WiredAt(i);
        var oldSize := caches[i].pool.payload;
        if newSize <= oldSize {
          NothingChanged(s, s, ptr);
          return ptr;
        }
        result := Move(ptr, oldSize, newSize);
      } else {
        BlockCap(cfg, s, ptr);
        var kept, oldSize := ResizeGeneral(ptr, newSize);
        if kept {
          LiveNonNull(cfg, Snap(), ptr);
          return ptr;
        }
        result := Move(ptr, oldSize, newSize);
      }
    }

    // ---- my_calloc -------------------------------------------------------------------------

    /** memset to zero of the first n bytes of a live payload: whole words, then what is left of
        the last one. */
    method Zero(ptr: int, n: int)
      requires Valid() && PtrLive(Snap(), ptr) && 0 <= n <= Cap(Snap(), ptr)
      modifies mem`words
      ensures Valid() && Written(old(Snap()), Snap(), ptr) && Zeroed(mem.words, ptr, n)
    {
      ghost var s := Snap();
      LiveNonNull(cfg, s, ptr);
      forall j | 0 <= j < n && j % 8 == 0 ensures ptr + j in s.words {
        assert j in Offsets(Cap(s, ptr));
      }
      var k := 0;
      while k + 8 <= n
        invariant 0 <= k <= n && k % 8 == 0
        invariant PayloadOnly(s, mem.words, ptr)
        invariant forall j | 0 <= j < k && j % 8 == 0 :: ptr + j in mem.words && mem.words[ptr + j] == 0
      {
        mem.Store(ptr + k, 0);
        EightsAdd(k, 8);
        NextWord(k);
        k := k + 8;
      }
      ghost var whole := mem.words;
      if k < n {
        mem.Store(ptr + k, ClearLow(mem.words[ptr + k], n - k));
      }
      ZeroedBytes(whole, mem.words, ptr, n, k);
      PayloadDone(s, ptr);
    }

    method MyCalloc(count: int, size: int) returns (ptr: int)
      requires Valid() && 0 <= count < WORD_LIMIT && 0 <= size < WORD_LIMIT
      requires count * size <= MAX_REQUEST || WORD_LIMIT <= count * size
      modifies Repr()
      ensures Valid() && Callocs(cfg, old(Snap()), Snap(), count, size, ptr)
    {
      var overflows := ProductOverflows(count, size);
      if overflows {
        return 0;
      }
      var total := Product(count, size);
      ptr := MallocZeroed(total);
    }

    /** The part of my_calloc after the overflow check. */
    method MallocZeroed(total: int) returns (ptr: int)
      requires Valid() && 0 <= total <= MAX_REQUEST
      modifies Repr()
      ensures Valid() && Mallocs(cfg, old(Snap()), Snap(), total, ptr)
      ensures ptr != 0 ==> Zeroed(mem.words, ptr, total)
    {
      ghost var s := Snap();
      ptr := MyMalloc(total);
      if ptr == 0 {
        return;
      }
      ghost var s1 := Snap();
      assert ptr in NonNull(ptr) && PtrLive(s1, ptr);
      Zero(ptr, total);
      ZeroedIsNew(cfg, s, s1, Snap(), total, ptr);
    }
  }
}
