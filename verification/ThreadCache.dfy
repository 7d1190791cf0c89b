/** A thread's private cache of free slots for one size class, refilled from and flushed to
    its pool in batches. */
module ThreadCache {
  import opened Machine
  import opened FreeLists
  import opened Chains
  import opened MemoryPool

  const BATCH := 32
  const CAP := 2 * BATCH

  /** The cache, the pool's chain and the system, as values. */
  datatype Cached = Cached(cache: seq<int>, chain: seq<int>, os: Os)

  ghost function Refilled(c: Cached, total: int): Cached
    requires 0 < total
  {
    var (batch, chain', os') := TakenBatch(c.chain, c.os, total, BATCH);
    Cached(batch, chain', os')
  }

  /** A pooled allocation: the slot handed out (null when refused) and the state afterwards. */
  ghost function Malloc(c: Cached, total: int): (int, Cached)
    requires 0 < total
  {
    var c' := if c.cache == [] then Refilled(c, total) else c;
    if c'.cache == [] then (0, c') else (c'.cache[0], c'.(cache := c'.cache[1..]))
  }

  /** Moves the first BATCH cached slots (or all, when there are fewer) to the pool. */
  ghost function Flushed(c: Cached): Cached {
    var n := if |c.cache| < BATCH then |c.cache| else BATCH;
    Cached(c.cache[n..], c.cache[..n] + c.chain, c.os)
  }

  /** A pooled free. */
  ghost function Free(c: Cached, slot: int): Cached {
    var c' := c.(cache := [slot] + c.cache);
    if |c'.cache| > CAP then Flushed(c') else c'
  }

  class ThreadLocalCache {
    const pool: Pool
    const mem: Memory
    var head: int
    var tail: int
    var count: nat
    ghost var cache: seq<int>
    /** How often this thread has taken the pool's mutex. */
    ghost var acquisitions: nat

    ghost function Model(): Cached
      reads this, pool, mem
    {
      Cached(cache, pool.chain, mem.System())
    }

    /** The cached words spell out `cache`, the tail and count agree with it, it shares no
        slot with the pool, and between calls it is within the cap. */
    ghost predicate Shaped()
      reads this, pool, mem
    {
      && pool.mem == mem && pool.Valid()
      && Chained(mem.words, head, cache) && tail == Last(cache) && count == |cache|
      && forall s | s in cache :: s in pool.slots && s !in pool.chain
    }

    ghost predicate Valid()
      reads this, pool, mem
    {
      Shaped() && count <= CAP
    }

    constructor (pool: Pool)
      requires pool.Valid()
      ensures this.pool == pool && this.mem == pool.mem && cache == [] && acquisitions == 0 && Valid()
    {
      this.pool := pool;
      mem := pool.mem;
      head, tail, count := 0, 0, 0;
      cache := [];
      acquisitions := 0;
    }

    /** No word has changed but the headers of slots that were free, and of new slots. */
    twostate predicate OnlyFreeTouched()
      reads this, pool, mem
    {
      && old(pool.slots) <= pool.slots && old(mem.words.Keys) <= mem.words.Keys
      && (forall s | s in pool.slots && s !in old(pool.slots) ::
            WordsOf(Region(s, pool.total)) !! old(mem.words.Keys) && s !in old(mem.words))
      && forall w | w in old(mem.words) && w !in old(cache) && w !in old(pool.chain) ::
           mem.words[w] == old(mem.words)[w]
    }

    /** Takes the first cached slot and tags it as live. */
    method PopFromCache() returns (ptr: int)
      requires Shaped() && cache != []
      modifies this`head, this`tail, this`count, this`cache, mem`words
      ensures Shaped() && pool.chain == old(pool.chain) && mem.words.Keys == old(mem.words.Keys)
      ensures ptr == old(cache)[0] + SLOT_HEADER && cache == old(cache)[1..]
      ensures var slot := old(cache)[0];
              && slot in pool.slots && slot !in cache && slot !in pool.chain
              && mem.words == old(mem.words)[slot := pool.self]
    {
      HeadFacts(mem.words, head, cache);
      assert cache[0] in cache;
      var slot := head;
      head := mem.words[slot];
      if head == 0 {
        tail := 0;
      }
      count := count - 1;
      cache := cache[1..];
      HeadFacts(mem.words, head, cache);
      ChainedFrame(mem.words, mem.words[slot := pool.self], head, cache);
      ChainedFrame(mem.words, mem.words[slot := pool.self], pool.freeHead, pool.chain);
      mem.Store(slot, pool.self);
      ptr := slot + SLOT_HEADER;
    }

    /** my_malloc_pooled_stage3: no lock on a hit, one acquisition on a miss. */
    method MallocPooled() returns (ptr: int)
      requires Valid()
      modifies this, pool, mem
      ensures Valid() && OnlyFreeTouched()
      ensures var (slot, after) := Malloc(old(Model()), pool.total);
              && Model() == after && ptr == (if slot == 0 then 0 else slot + SLOT_HEADER)
              && (slot != 0 ==>
                    && slot in pool.slots && slot !in cache && slot !in pool.chain
                    && (slot in old(cache) || slot in old(pool.chain) || slot !in old(pool.slots))
                    && slot in mem.words && mem.words[slot] == pool.self)
      ensures forall s :: s in pool.chain || s in cache || (ptr != 0 && s == ptr - SLOT_HEADER)
                <==> s in old(pool.chain) || s in old(cache) || (s in pool.slots && s !in old(pool.slots))
      ensures acquisitions == old(acquisitions) + if old(cache) == [] then 1 else 0
    {
      HeadFacts(mem.words, head, cache);
      if head != 0 {
        ptr := PopFromCache();
        return;
      }
      acquisitions := acquisitions + 1;
      var batchHead, batchTail, batchCount, batch := pool.AllocateBatch(BATCH);
      HeadFacts(mem.words, batchHead, batch);
      if batchHead == 0 {
        return 0;
      }
      head, tail, count, cache := batchHead, batchTail, batchCount, batch;
      ptr := PopFromCache();
    }

    /** Cuts the first 32 slots off the cache. The pool is not touched, so this needs no
        lock. */
    method DetachBatch() returns (detachHead: int, detachTail: int, ghost detached: seq<int>)
      requires Shaped() && cache != []
      modifies this`head, this`tail, this`count, this`cache, mem`words
      ensures Shaped() && pool.chain == old(pool.chain)
      ensures old(cache) == detached + cache && NoDuplicates(old(cache))
      ensures |detached| == if |old(cache)| < 32 then |old(cache)| else 32
      ensures Chained(mem.words, detachHead, detached) && detachTail == Last(detached)
      ensures forall s | s in detached :: s in pool.slots && s !in pool.chain && s !in cache
      ensures mem.words.Keys == old(mem.words.Keys)
      ensures forall w | w in mem.words && w !in old(cache) :: mem.words[w] == old(mem.words)[w]
    {
      HeadFacts(mem.words, head, cache);
      detachHead := head;
      detachTail := detachHead;
      var detachCount := 1;
      while detachCount < BATCH && mem.words[detachTail] != 0
        invariant 1 <= detachCount <= BATCH && detachCount <= |cache|
        invariant detachTail == cache[detachCount - 1] && LinkOk(mem.words, cache, detachCount - 1)
        decreases BATCH - detachCount
      {
        detachTail := mem.words[detachTail];
        detachCount := detachCount + 1;
        assert LinkOk(mem.words, cache, detachCount - 1);
      }
      assert detachCount < |cache| ==> LinkOk(mem.words, cache, detachCount);
      detached := cache[..detachCount];
      ghost var kept := cache[detachCount..];
      assert detachTail in cache && cache == detached + kept;
      Cut(mem.words, head, cache, detachCount);
      ChainedFrame(mem.words, mem.words[detachTail := 0], pool.freeHead, pool.chain);
      head := mem.words[detachTail];
      mem.Store(detachTail, 0);
      if head == 0 {
        tail := 0;
      }
      count := count - detachCount;
      cache := kept;
    }

    /** Detaches a batch without the lock, then splices it onto the pool under one
        acquisition. */
    method FlushBatchToPool()
      requires Shaped() && cache != []
      modifies this, pool`freeHead, pool`chain, mem`words
      ensures Shaped() && Model() == Flushed(old(Model()))
      ensures var n := if |old(cache)| < 32 then |old(cache)| else 32;
              cache == old(cache)[n..] && pool.chain == old(cache)[..n] + old(pool.chain)
      ensures acquisitions == old(acquisitions) + 1
      ensures mem.words.Keys == old(mem.words.Keys)
      ensures forall w | w in mem.words && w !in old(cache) :: mem.words[w] == old(mem.words)[w]
    {
      var detachHead, detachTail, detached := DetachBatch();
      ghost var cut := mem.words;
      acquisitions := acquisitions + 1;
      pool.DeallocateBatch(detachHead, detachTail, detached);
      assert detachTail in detached;
      ChainedFrame(cut, mem.words, head, cache);
      assert old(cache)[..|detached|] == detached && old(cache)[|detached|..] == cache;
    }

    /** Links a slot in front of the cache. */
    method PushToCache(slot: int)
      requires Shaped() && slot in pool.slots && slot !in cache && slot !in pool.chain
      modifies this`head, this`tail, this`count, this`cache, mem`words
      ensures Shaped() && cache == [slot] + old(cache)
      ensures mem.words.Keys == old(mem.words.Keys)
      ensures forall w | w in mem.words && w != slot :: mem.words[w] == old(mem.words)[w]
    {
      HeadFacts(mem.words, head, cache);
      SlotMapped(mem.words.Keys, pool.slots, pool.total, slot);
      Push(mem.words, head, cache, slot);
      ChainedFrame(mem.words, mem.words[slot := head], pool.freeHead, pool.chain);
      mem.Store(slot, head);
      if head == 0 {
        tail := slot;
      }
      head := slot;
      count := count + 1;
      cache := [slot] + cache;
    }

    /** my_free_pooled_stage3: push onto this thread's cache, whoever allocated the slot, and
        flush one batch when the cache exceeds its cap. */
    method FreePooled(slot: int)
      requires Valid() && slot in pool.slots && slot !in cache && slot !in pool.chain
      modifies this, pool`freeHead, pool`chain, mem`words
      ensures Valid() && Model() == Free(old(Model()), slot)
      ensures acquisitions == old(acquisitions) + if |old(cache)| == 64 then 1 else 0
      ensures if |old(cache)| == 64 then
                |cache| == 33 && |pool.chain| == |old(pool.chain)| + 32
              else |cache| == |old(cache)| + 1 <= 64 && pool.chain == old(pool.chain)
      ensures mem.words.Keys == old(mem.words.Keys)
      ensures forall w | w in mem.words && w != slot && w !in old(cache) :: mem.words[w] == old(mem.words)[w]
    {
      PushToCache(slot);
      if count > CAP {
        FlushBatchToPool();
      }
    }
  }
}
