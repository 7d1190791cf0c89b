/** Why the thread cache pays: how rarely it locks, and that it serves the slots the locked
    pool would have served. */
module CacheLaws {
  import opened Machine
  import opened FreeLists
  import opened MemoryPool
  import opened ThreadCache

  /** What happens to a thread's cache: its own operations, and, between them, other threads
      leaving the shared pool and the system in any state. */
  datatype Op = MallocOp | FreeOp(slot: int) | Others(chain: seq<int>, os: Os)

  ghost function Step(c: Cached, op: Op, total: int): Cached
    requires 0 < total
  {
    match op
    case MallocOp => Malloc(c, total).1
    case FreeOp(slot) => Free(c, slot)
    case Others(chain, os) => c.(chain := chain, os := os)
  }

  /** Exactly the operations that take the pool's mutex: a miss and a flush. */
  ghost predicate TakesLock(c: Cached, op: Op) {
    match op
    case MallocOp => c.cache == []
    case FreeOp(_) => |c.cache| == 64
    case Others(_, _) => false
  }

  /** The system can supply what a refill needs. */
  ghost predicate CanRefill(c: Cached, total: int) {
    32 <= |c.chain| || c.os.Ask(if total < 0 then 0 else total * 256).0.Some?
  }

  ghost predicate ChainsPositive(c: Cached) {
    && (forall i | 0 <= i < |c.cache| :: 0 < c.cache[i])
    && (forall i | 0 <= i < |c.chain| :: 0 < c.chain[i])
  }

  /** A pooled free keeps every slot: those in the cache and the pool afterwards are those before,
      and the one freed. */
  lemma FreeConserves(c: Cached, slot: int)
    ensures var c' := Free(c, slot);
            && c'.os == c.os
            && forall x :: x in c'.cache || x in c'.chain <==> x in c.cache || x in c.chain || x == slot
  {
    var pushed, c' := [slot] + c.cache, Free(c, slot);
    assert slot == pushed[0] && forall i | 0 <= i < |c.cache| :: pushed[i + 1] == c.cache[i];
    if |pushed| > 64 {
      assert c' == Cached(pushed[32..], pushed[..32] + c.chain, c.os);
      assert pushed == pushed[..32] + pushed[32..];
    } else {
      assert c' == Cached(pushed, c.chain, c.os);
    }
  }

  // ---- Refills ---------------------------------------------------------------------------

  /** A batch that outruns the chain takes it whole, then goes on with the new arena's
      slots; nothing is lost, duplicated or reordered. */
  lemma {:induction false} BatchConserves(chain: seq<int>, os: Os, total: int, n: nat)
    requires 0 < total && total % ALIGNMENT == 0 && |chain| < n <= 256
    requires forall i | 0 <= i < |chain| :: 0 < chain[i]
    requires os.Ask(total * 256).0.Some?
    ensures var (answer, os') := os.Ask(total * 256);
            var (batch, chain', os'') := TakenBatch(chain, os, total, n);
            && |batch| == n && os'' == os'
            && batch + chain' == chain + Carved(answer.value.base, answer.value.size, total)
  {
    var (answer, os') := os.Ask(total * 256);
    var carved := Carved(answer.value.base, answer.value.size, total);
    GrantedSlots(os, total);
    if chain == [] {
      assert carved + [] == carved;
      BatchIsPrefix(carved[1..], os', total, n - 1);
      assert [carved[0]] + carved[1..][..n - 1] + carved[1..][n - 1..] == carved;
    } else {
      BatchConserves(chain[1..], os, total, n - 1);
      var (rest, chain', os'') := TakenBatch(chain[1..], os, total, n - 1);
      FirstAndRest(chain, rest, chain', carved);
    }
  }

  lemma FirstAndRest(chain: seq<int>, rest: seq<int>, chain': seq<int>, carved: seq<int>)
    requires chain != [] && rest + chain' == chain[1..] + carved
    ensures [chain[0]] + rest + chain' == chain + carved
  {
    assert [chain[0]] + (chain[1..] + carved) == chain + carved;
    assert [chain[0]] + rest + chain' == [chain[0]] + (rest + chain');
  }

  /** A refill the system can supply is a full batch. */
  lemma RefillIsFull(c: Cached, total: int)
    requires 0 < total && total % ALIGNMENT == 0 && ChainsPositive(c) && CanRefill(c, total)
    ensures |Refilled(c, total).cache| == 32
  {
    if 32 <= |c.chain| {
      BatchIsPrefix(c.chain, c.os, total, 32);
    } else {
      BatchConserves(c.chain, c.os, total, 32);
    }
  }

  /** A pooled allocation fails only when the cache and the pool are empty and the system refuses
      an arena; then nothing is taken from either. */
  lemma NullIsRefusal(c: Cached, total: int)
    requires 0 < total && total % ALIGNMENT == 0 && ChainsPositive(c)
    ensures Malloc(c, total).0 == 0 <==>
              c.cache == [] && c.chain == [] && c.os.Ask(total * 256).0.None?
    ensures Malloc(c, total).0 == 0 ==> Malloc(c, total).1.cache == [] && Malloc(c, total).1.chain == []
  {
    if c.cache == [] {
      var (slot, chain', os') := Taken(c.chain, c.os, total);
      assert TakenBatch(c.chain, c.os, total, 32).0 == [] <==> slot == 0;
      if c.chain == [] && c.os.Ask(total * 256).0.Some? {
        GrantedSlots(c.os, total);
        var r := c.os.Ask(total * 256).0.value;
        assert Carved(r.base, r.size, total) + [] == Carved(r.base, r.size, total);
      }
      if slot != 0 {
        TakenFirst(c.chain, c.os, total);
      }
    }
  }

  /** The first slot of a batch is the first slot taken. */
  lemma TakenFirst(chain: seq<int>, os: Os, total: int)
    requires 0 < total && Taken(chain, os, total).0 != 0
    ensures TakenBatch(chain, os, total, 32).0 != [] && TakenBatch(chain, os, total, 32).0[0] == Taken(chain, os, total).0
  {
  }

  /** What is handed out is a slot or null. */
  lemma MallocPositive(c: Cached, total: int)
    requires 0 < total && total % ALIGNMENT == 0 && ChainsPositive(c)
    ensures 0 <= Malloc(c, total).0
  {
    if c.cache == [] {
      BatchPositive(c.chain, c.os, total, 32);
    }
  }

  lemma {:induction false} BatchPositive(chain: seq<int>, os: Os, total: int, n: nat)
    requires 0 < total && total % ALIGNMENT == 0 && forall i | 0 <= i < |chain| :: 0 < chain[i]
    ensures forall i | 0 <= i < |TakenBatch(chain, os, total, n).0| :: 0 < TakenBatch(chain, os, total, n).0[i]
    decreases n
  {
    if n == 0 {
    } else {
      if chain == [] && os.Ask(total * 256).0.Some? {
        GrantedSlots(os, total);
        var r := os.Ask(total * 256).0.value;
        assert Carved(r.base, r.size, total) + [] == Carved(r.base, r.size, total);
      }
      var (slot, chain', os') := Taken(chain, os, total);
      BatchPositive(chain', os', total, n - 1);
    }
  }

  lemma RefilledPositive(c: Cached, total: int)
    requires 0 < total && total % ALIGNMENT == 0 && ChainsPositive(c) && CanRefill(c, total)
    ensures ChainsPositive(Refilled(c, total))
  {
    var r := Refilled(c, total);
    if 32 <= |c.chain| {
      BatchIsPrefix(c.chain, c.os, total, 32);
    } else {
      GrantedSlots(c.os, total);
      BatchConserves(c.chain, c.os, total, 32);
      var a := c.os.Ask(total * 256).0.value;
      var all := c.chain + Carved(a.base, a.size, total);
      assert forall i | 0 <= i < |r.cache| :: r.cache[i] == all[i];
      assert forall i | 0 <= i < |r.chain| :: r.chain[i] == all[|r.cache| + i];
    }
  }

  lemma StepPositive(c: Cached, op: Op, total: int)
    requires 0 < total && total % ALIGNMENT == 0 && ChainsPositive(c)
    requires op.MallocOp? && c.cache == [] ==> CanRefill(c, total)
    requires op.FreeOp? ==> 0 < op.slot
    requires op.Others? ==> forall k | 0 <= k < |op.chain| :: 0 < op.chain[k]
    ensures ChainsPositive(Step(c, op, total))
  {
    if op.MallocOp? && c.cache == [] {
      RefilledPositive(c, total);
    }
  }

  // ---- The lock budget -------------------------------------------------------------------

  /** A run in which the client frees real slots, other threads leave real slots in the pool, and
      the system supplies every refill of this thread. */
  ghost predicate Supplied(c: Cached, ops: seq<Op>, total: int)
    requires 0 < total
    decreases |ops|
  {
    ops == [] ||
    (&& (ops[0].MallocOp? && c.cache == [] ==> CanRefill(c, total))
     && (ops[0].FreeOp? ==> 0 < ops[0].slot)
     && (ops[0].Others? ==> forall k | 0 <= k < |ops[0].chain| :: 0 < ops[0].chain[k])
     && Supplied(Step(c, ops[0], total), ops[1..], total))
  }

  ghost function Locks(c: Cached, ops: seq<Op>, total: int): nat
    requires 0 < total
    decreases |ops|
  {
    if ops == [] then 0
    else (if TakesLock(c, ops[0]) then 1 else 0) + Locks(Step(c, ops[0], total), ops[1..], total)
  }

  /** How many of the operations are the thread's own. */
  ghost function Own(ops: seq<Op>): nat {
    if ops == [] then 0 else (if ops[0].Others? then 0 else 1) + Own(ops[1..])
  }

  /** How many operations must still come, at least, up to and including the next one that
      locks. */
  function Distance(count: nat): int {
    var near := if count + 1 < 65 - count then count + 1 else 65 - count;
    if near < 32 then near else 32
  }

  /** One operation: a lock is taken only at distance one and restores the full distance;
      any other operation brings the next lock at most one nearer. */
  lemma StepDistance(c: Cached, op: Op, total: int)
    requires 0 < total && total % ALIGNMENT == 0 && |c.cache| <= 64 && ChainsPositive(c)
    requires op.MallocOp? && c.cache == [] ==> CanRefill(c, total)
    ensures var c' := Step(c, op, total);
            && |c'.cache| <= 64
            && if TakesLock(c, op) then Distance(|c.cache|) == 1 && Distance(|c'.cache|) == 32
               else Distance(|c.cache|) - (if op.Others? then 0 else 1) <= Distance(|c'.cache|)
  {
    if op.MallocOp? && c.cache == [] {
      RefillIsFull(c, total);
    }
  }

  lemma {:induction false} LocksWithinDistance(c: Cached, ops: seq<Op>, total: int)
    requires 0 < total && total % ALIGNMENT == 0 && |c.cache| <= 64 && ChainsPositive(c)
    requires Supplied(c, ops, total)
    ensures 32 * Locks(c, ops, total) <= Own(ops) + 32 - Distance(|c.cache|)
    decreases |ops|
  {
    if ops == [] {
    } else {
      var c' := Step(c, ops[0], total);
      StepDistance(c, ops[0], total);
      StepPositive(c, ops[0], total);
      LocksWithinDistance(c', ops[1..], total);
    }
  }

  /** The amortised bound: from any cache between calls, N operations of a thread, in any mix and
      with any interference by other threads, take the pool's mutex at most 1 + (N - 1) / 32
      times. */
  lemma LockBudget(c: Cached, ops: seq<Op>, total: int)
    requires 0 < total && total % ALIGNMENT == 0 && |c.cache| <= 64 && ChainsPositive(c)
    requires Supplied(c, ops, total) && 0 < Own(ops)
    ensures Locks(c, ops, total) <= 1 + (Own(ops) - 1) / 32
  {
    LocksWithinDistance(c, ops, total);
  }

  /** Two acquisitions are at least 32 operations apart: a run that starts with one and
      holds no more than 32 of the thread's own operations holds no other. */
  lemma LocksAreApart(c: Cached, ops: seq<Op>, total: int)
    requires 0 < total && total % ALIGNMENT == 0 && |c.cache| <= 64 && ChainsPositive(c)
    requires Supplied(c, ops, total) && ops != [] && Own(ops) <= 32 && TakesLock(c, ops[0])
    ensures Locks(c, ops, total) == 1
  {
    StepDistance(c, ops[0], total);
    StepPositive(c, ops[0], total);
    LocksWithinDistance(Step(c, ops[0], total), ops[1..], total);
  }

  // ---- The same slots as the locked pool ---------------------------------------------------

  /** The pool used directly under its lock: a stack of slots over the same system. */
  datatype Stack = Stack(free: seq<int>, os: Os)

  ghost function StackMalloc(s: Stack, total: int): (int, Stack)
    requires 0 < total
  {
    var (slot, free', os') := Taken(s.free, s.os, total);
    (slot, Stack(free', os'))
  }

  ghost function StackStep(s: Stack, op: Op, total: int): Stack
    requires 0 < total
  {
    match op
    case MallocOp => StackMalloc(s, total).1
    case FreeOp(slot) => Stack([slot] + s.free, s.os)
    case Others(_, _) => s
  }

  /** The slots of an arena that the cache has fetched and the stack has not. */
  ghost predicate Prefetched(c: Cached, s: Stack, total: int)
    requires 0 < total
  {
    var (answer, os') := s.os.Ask(total * 256);
    && answer.Some? && c.os == os'
    && c.cache + c.chain == s.free + Carved(answer.value.base, answer.value.size, total)
  }

  /** The cache followed by the pool chain is the stack, followed at most by one prefetched
      arena. */
  ghost predicate Simulates(c: Cached, s: Stack, total: int)
    requires 0 < total
  {
    || (c.cache + c.chain == s.free && c.os == s.os)
    || Prefetched(c, s, total)
  }

  lemma RefillSimulates(c: Cached, s: Stack, total: int)
    requires 0 < total && total % ALIGNMENT == 0 && ChainsPositive(c) && c.cache == []
    requires Simulates(c, s, total) && CanRefill(c, total)
    ensures var c' := Refilled(c, total); |c'.cache| == 32 && Simulates(c', s, total)
  {
    assert [] + c.chain == c.chain;
    if 32 <= |c.chain| {
      BatchIsPrefix(c.chain, c.os, total, 32);
      assert c.chain[..32] + c.chain[32..] == c.chain;
    } else {
      if Prefetched(c, s, total) {
        GrantedSlots(s.os, total);
      }
      BatchConserves(c.chain, c.os, total, 32);
    }
  }

  lemma HitSimulates(c: Cached, s: Stack, total: int)
    requires 0 < total && total % ALIGNMENT == 0 && ChainsPositive(c) && c.cache != []
    requires Simulates(c, s, total)
    ensures Malloc(c, total).0 == StackMalloc(s, total).0
    ensures Simulates(Malloc(c, total).1, StackMalloc(s, total).1, total)
  {
    var all := c.cache + c.chain;
    assert all[0] == c.cache[0] && all[1..] == c.cache[1..] + c.chain;
    if Prefetched(c, s, total) {
      var a := s.os.Ask(total * 256).0.value;
      var carved := Carved(a.base, a.size, total);
      GrantedSlots(s.os, total);
      if s.free == [] {
        assert [] + carved == carved && carved + [] == carved;
      } else {
        assert (s.free + carved)[1..] == s.free[1..] + carved;
      }
    }
  }

  /** One operation that does not flush: the same slot, and the relation is kept. */
  lemma StepSimulates(c: Cached, s: Stack, op: Op, total: int)
    requires 0 < total && total % ALIGNMENT == 0 && ChainsPositive(c) && Simulates(c, s, total)
    requires op.MallocOp? && c.cache == [] ==> CanRefill(c, total)
    requires !op.Others? && (op.FreeOp? ==> |c.cache| < 64)
    ensures Simulates(Step(c, op, total), StackStep(s, op, total), total)
    ensures op.MallocOp? ==> Malloc(c, total).0 == StackMalloc(s, total).0 != 0
  {
    match op
    case MallocOp =>
      var c' := c;
      if c.cache == [] {
        RefillSimulates(c, s, total);
        RefilledPositive(c, total);
        c' := Refilled(c, total);
      }
      HitSimulates(c', s, total);
    case FreeOp(slot) =>
      assert [slot] + c.cache + c.chain == [slot] + (c.cache + c.chain);
      if Prefetched(c, s, total) {
        var a := s.os.Ask(total * 256).0.value;
        var carved := Carved(a.base, a.size, total);
        assert [slot] + (s.free + carved) == [slot] + s.free + carved;
      }
  }

  /** The thread runs alone, and never flushes. */
  ghost predicate NoFlush(c: Cached, ops: seq<Op>, total: int)
    requires 0 < total
    decreases |ops|
  {
    ops == [] || (!ops[0].Others? && (ops[0].FreeOp? ==> |c.cache| < 64) && NoFlush(Step(c, ops[0], total), ops[1..], total))
  }

  /** The slots handed out, in order. */
  ghost function CacheServes(c: Cached, ops: seq<Op>, total: int): seq<int>
    requires 0 < total
    decreases |ops|
  {
    if ops == [] then []
    else (if ops[0].MallocOp? then [Malloc(c, total).0] else []) + CacheServes(Step(c, ops[0], total), ops[1..], total)
  }

  ghost function StackServes(s: Stack, ops: seq<Op>, total: int): seq<int>
    requires 0 < total
    decreases |ops|
  {
    if ops == [] then []
    else (if ops[0].MallocOp? then [StackMalloc(s, total).0] else []) + StackServes(StackStep(s, ops[0], total), ops[1..], total)
  }

  /** Until its first flush, the cache of a thread that runs alone serves the slots that direct locked use of the pool
      would have served, in the same order, across refills and new arenas. */
  lemma {:induction false} CacheServesLikeStack(c: Cached, s: Stack, ops: seq<Op>, total: int)
    requires 0 < total && total % ALIGNMENT == 0 && ChainsPositive(c) && Simulates(c, s, total)
    requires Supplied(c, ops, total) && NoFlush(c, ops, total)
    ensures CacheServes(c, ops, total) == StackServes(s, ops, total)
    decreases |ops|
  {
    if ops == [] {
    } else {
      StepSimulates(c, s, ops[0], total);
      StepPositive(c, ops[0], total);
      CacheServesLikeStack(Step(c, ops[0], total), StackStep(s, ops[0], total), ops[1..], total);
    }
  }

  /** At a flush the two part: the stack would serve the slot just freed, the cache serves the
      one that lay 32 deeper. */
  lemma FlushPartsOrder(c: Cached, s: Stack, slot: int, total: int)
    requires 0 < total && |c.cache| == 64 && NoDuplicates(c.cache) && slot !in c.cache
    ensures StackMalloc(StackStep(s, FreeOp(slot), total), total).0 == slot
    ensures Malloc(Free(c, slot), total).0 == c.cache[31] != slot
  {
  }
}
