/** Every interleaving of the threads refines the atomic allocator. */
module ThreadRefinement {
  import opened Machine
  import opened BlockTags
  import opened FreeLists
  import opened HeapModel
  import opened Chains
  import opened MemoryPool
  import opened SlotSystem
  import opened Threads
  import opened ThreadInvariant
  import opened ThreadProof
  import opened ThreadSlotProof
  import opened ThreadSlotSteps
  import opened ThreadHeapProof
  import opened ThreadLaws
  import opened AtomicAllocator
  import GP = GeneralPath
  import TC = ThreadCache
  import HL = HeapLaws

  // ---- The abstraction -----------------------------------------------------------------------

  ghost function LivePtrs(s: Sys): (ptrs: set<int>)
    ensures forall p :: p in ptrs <==> PtrLive(s, p)
  {
    var ptrs := (set x | x in s.sl.live :: x + HEADER) + (set a | a in s.heap.blocks && !s.heap.blocks[a].free :: a + HEADER);
    assert forall p | PtrLive(s, p) :: p == (p - HEADER) + HEADER;
    ptrs
  }

  ghost function PayloadAt(s: Sys, p: int): Payload {
    Snapshot(s.words, p, Cap(s, p))
  }

  ghost function CallOf(th: Thread): Call {
    if th.at.Idle? then NoCall
    else if IsFreeing(th.at) then Freeing(th.ptr, th.result)
    else if IsFreed(th.at) then Released(th.result)
    else if th.source != 0 && th.result != 0 then Moved(th.source, th.n, th.result)
    else if th.source != 0 then Moving(th.source, th.n)
    else if th.result != 0 then Allocated(th.n, th.result)
    else Allocating(th.n)
  }

  ghost function Payloads(s: Sys): (live: map<int, Payload>)
    ensures forall p :: p in live <==> PtrLive(s, p)
    ensures forall p | p in live :: live[p] == PayloadAt(s, p)
  {
    map p | p in LivePtrs(s) :: PayloadAt(s, p)
  }

  ghost function Calls(threads: map<nat, Thread>): (calls: map<nat, Call>)
    ensures calls.Keys == threads.Keys
    ensures forall t | t in threads :: calls[t] == CallOf(threads[t])
  {
    map t | t in threads :: CallOf(threads[t])
  }

  ghost function Abs(s: Sys): Atomic {
    Atomic(Payloads(s), s.held, Calls(s.threads))
  }

  // ---- What a quiet step does to the payloads --------------------------------------------------

  lemma KeptPayload(cfg: Config, s: Sys, s': Sys, p: int)
    requires MemoryOk(cfg, s) && MemoryOk(cfg, s') && PtrLive(s, p) && PtrLive(s', p) && Kept(s, s', p)
    ensures PayloadAt(s', p) == PayloadAt(s, p)
  {
    LiveNonNull(cfg, s, p);
    LiveNonNull(cfg, s', p);
    forall k | k in Offsets(Cap(s, p)) ensures p + k in s.words && p + k in s'.words && s'.words[p + k] == s.words[p + k] {
    }
    assert PayloadAt(s, p).Keys == Offsets(Cap(s, p)) && PayloadAt(s', p).Keys == Offsets(Cap(s, p));
  }

  lemma PayloadDomain(cfg: Config, s: Sys, p: int)
    requires MemoryOk(cfg, s) && PtrLive(s, p)
    ensures PayloadAt(s, p).Keys == Offsets(Cap(s, p))
  {
    LiveNonNull(cfg, s, p);
  }

  lemma RoomFor(cfg: Config, s: Sys, p: int, n: int)
    requires MemoryOk(cfg, s) && PtrLive(s, p) && n <= Cap(s, p)
    ensures Covers(PayloadAt(s, p), n)
  {
    PayloadDomain(cfg, s, p);
    assert forall k | 0 <= k < n && k % 8 == 0 :: k in Offsets(Cap(s, p));
  }

  /** t's registers and the clients' pointers lose `gone` and gain `born`. */
  ghost predicate Trades(s: Sys, s': Sys, t: nat, gone: set<int>, born: set<int>) {
    && t in s.threads && t in s'.threads && s'.threads == s.threads[t := s'.threads[t]]
    && gone <= Regs(s.threads[t]) && gone !! born
    && Regs(s'.threads[t]) + s'.held == (Regs(s.threads[t]) + s.held - gone) + born
  }

  /** Ownership alone decides which pointers live on. */
  lemma LiveAfter(s: Sys, s': Sys, t: nat, gone: set<int>, born: set<int>)
    requires OwnershipOk(s) && OwnershipOk(s') && Trades(s, s', t, gone, born)
    ensures forall p :: PtrLive(s', p) <==> (PtrLive(s, p) && p !in gone) || p in born
  {
    var before, after := Regs(s.threads[t]), Regs(s'.threads[t]);
    forall p | PtrLive(s', p) ensures (PtrLive(s, p) && p !in gone) || p in born {
      if p in after + s'.held {
        assert p in before ==> Owns(s, t, p);
      } else {
        var u :| Owns(s', u, p);
        assert Owns(s', t, p) ==> p in after;
        assert Owns(s, u, p);
        assert p in gone ==> Owns(s, t, p);
      }
    }
    forall p | (PtrLive(s, p) && p !in gone) || p in born ensures PtrLive(s', p) {
      if p in before + s.held || p in born {
        assert p in after + s'.held;
        assert p in after ==> Owns(s', t, p);
      } else {
        var u :| Owns(s, u, p);
        assert Owns(s, t, p) ==> p in before;
        assert Owns(s', u, p);
      }
    }
  }

  /** After a quiet step of t: the payloads of pointers it neither freed nor rewrote. */
  lemma LivesOn(cfg: Config, s: Sys, s': Sys, t: nat, gone: set<int>, born: set<int>)
    requires MemoryOk(cfg, s) && MemoryOk(cfg, s') && OwnershipOk(s) && OwnershipOk(s')
    requires Quiet(s, s', t) && Trades(s, s', t, gone, born)
    ensures forall p :: PtrLive(s', p) <==> (PtrLive(s, p) && p !in gone) || p in born
    ensures forall p | PtrLive(s, p) && p !in gone && p !in Touched(s.threads[t]) :: PayloadAt(s', p) == PayloadAt(s, p)
  {
    LiveAfter(s, s', t, gone, born);
    forall p | PtrLive(s, p) && p !in gone && p !in Touched(s.threads[t]) ensures PayloadAt(s', p) == PayloadAt(s, p) {
      assert Spared(s, s', t, p);
      KeptPayload(cfg, s, s', p);
    }
  }

  /** The live map loses `gone`, gains `born`, and changes otherwise only where t rewrites. */
  ghost predicate LiveMoved(s: Sys, s': Sys, t: nat, gone: set<int>, born: set<int>) {
    && t in s.threads
    && Payloads(s').Keys == Payloads(s).Keys - gone + born
    && forall p | p in Payloads(s) && p !in gone && p !in Touched(s.threads[t]) ::
         p in Payloads(s') && Payloads(s')[p] == Payloads(s)[p]
  }

  lemma LiveMap(cfg: Config, s: Sys, s': Sys, t: nat, gone: set<int>, born: set<int>)
    requires MemoryOk(cfg, s) && MemoryOk(cfg, s') && OwnershipOk(s) && OwnershipOk(s')
    requires Quiet(s, s', t) && Trades(s, s', t, gone, born)
    ensures LiveMoved(s, s', t, gone, born)
  {
    LivesOn(cfg, s, s', t, gone, born);
    LiveKeys(s, s', gone, born);
    forall p | p in Payloads(s) && p !in gone && p !in Touched(s.threads[t])
      ensures p in Payloads(s') && Payloads(s')[p] == Payloads(s)[p]
    {
      assert PayloadAt(s', p) == PayloadAt(s, p);
    }
  }

  lemma LiveKeys(s: Sys, s': Sys, gone: set<int>, born: set<int>)
    requires forall p :: PtrLive(s', p) <==> (PtrLive(s, p) && p !in gone) || p in born
    ensures Payloads(s').Keys == Payloads(s).Keys - gone + born
  {
    var live, live' := Payloads(s), Payloads(s');
    forall p ensures p in live' <==> p in live.Keys - gone + born {
      assert p in live <==> PtrLive(s, p);
    }
  }

  lemma CallMap(s: Sys, s': Sys, t: nat)
    requires t in s.threads && t in s'.threads && s'.threads == s.threads[t := s'.threads[t]]
    ensures Calls(s'.threads) == Calls(s.threads)[t := CallOf(s'.threads[t])]
  {
    var left, right := Calls(s'.threads), Calls(s.threads)[t := CallOf(s'.threads[t])];
    assert left.Keys == right.Keys;
    assert forall u | u in left :: left[u] == right[u];
  }

  // ---- The shapes a step can have ----------------------------------------------------------------

  /** A step of t, as the atomic allocator sees it. */
  ghost predicate Refined(s: Sys, t: nat, s': Sys) {
    && t in s.threads && t in s'.threads && s'.threads == s.threads[t := s'.threads[t]]
    && Takes(Payloads(s), Payloads(s'), s.held, s'.held, CallOf(s.threads[t]), CallOf(s'.threads[t]))
  }

  lemma RefinedStep(s: Sys, t: nat, s': Sys)
    requires Refined(s, t, s')
    ensures CallStep(Abs(s), t, Abs(s'))
  {
    CallMap(s, s', t);
  }

  lemma SameMap<K, V>(m: map<K, V>, m': map<K, V>, touched: set<K>)
    requires m'.Keys == m.Keys - {} + {} && touched == {}
    requires forall q | q in m && q !in {} && q !in touched :: q in m' && m'[q] == m[q]
    ensures m' == m
  {
  }

  lemma GainMap<K, V>(m: map<K, V>, m': map<K, V>, touched: set<K>, p: K)
    requires m'.Keys == m.Keys - {} + {p} && touched == {} && p !in m
    requires forall q | q in m && q !in {} && q !in touched :: q in m' && m'[q] == m[q]
    ensures p in m' && m' == m[p := m'[p]]
  {
    assert p in m'.Keys;
  }

  lemma LossMap<K, V>(m: map<K, V>, m': map<K, V>, touched: set<K>, p: K)
    requires m'.Keys == m.Keys - {p} + {} && touched == {}
    requires forall q | q in m && q !in {p} && q !in touched :: q in m' && m'[q] == m[q]
    ensures m' == m - {p}
  {
  }

  lemma RewriteMap<K, V>(m: map<K, V>, m': map<K, V>, touched: set<K>, p: K)
    requires m'.Keys == m.Keys - {} + {} && touched <= {p} && p in m
    requires forall q | q in m && q !in {} && q !in touched :: q in m' && m'[q] == m[q]
    ensures p in m' && m' == m[p := m'[p]]
  {
    assert p in m'.Keys;
  }

  /** No pointer comes, goes or is rewritten. */
  ghost predicate Plain(s: Sys, t: nat, s': Sys) {
    && Trades(s, s', t, {}, {}) && Touched(s.threads[t]) == {}
    && var c, c' := CallOf(s.threads[t]), CallOf(s'.threads[t]);
    || (s'.held == s.held && c' == c)
    || Begins(s.held, s'.held, c, c') || Ends(s.held, s'.held, c, c')
  }

  lemma PlainRefines(s: Sys, t: nat, s': Sys)
    requires LiveMoved(s, s', t, {}, {}) && Plain(s, t, s')
    ensures Refined(s, t, s')
  {
    SameMap(Payloads(s), Payloads(s'), Touched(s.threads[t]));
  }

  /** A pointer p, new, becomes t's result. */
  ghost predicate Gains(s: Sys, t: nat, s': Sys, p: int) {
    && Trades(s, s', t, {}, {p}) && Touched(s.threads[t]) == {} && s'.held == s.held && !PtrLive(s, p)
    && var th, th' := s.threads[t], s'.threads[t];
    && p != 0 && th'.n <= Cap(s', p)
    && ((CallOf(th) == Allocating(th'.n) && CallOf(th') == Allocated(th'.n, p))
        || (CallOf(th) == Moving(th'.source, th'.n) && CallOf(th') == Moved(th'.source, th'.n, p)))
  }

  lemma GainTakes(live: map<int, Payload>, live': map<int, Payload>, held: set<int>, c: Call, c': Call, p: int, n: int)
    requires Adds(live, live', p, n)
    requires (c == Allocating(n) && c' == Allocated(n, p)) || (c.Moving? && c.n == n && c' == Moved(c.p, n, p))
    ensures Takes(live, live', held, held, c, c')
  {
  }

  lemma GainRefines(s: Sys, t: nat, s': Sys, p: int)
    requires LiveMoved(s, s', t, {}, {p}) && Gains(s, t, s', p)
    requires PtrLive(s', p) && Covers(PayloadAt(s', p), s'.threads[t].n)
    ensures Refined(s, t, s')
  {
    GainMap(Payloads(s), Payloads(s'), Touched(s.threads[t]), p);
    GainTakes(Payloads(s), Payloads(s'), s.held, CallOf(s.threads[t]), CallOf(s'.threads[t]), p, s'.threads[t].n);
  }

  /** t's pointer p stops being live. */
  ghost predicate Loses(s: Sys, t: nat, s': Sys, p: int) {
    && Trades(s, s', t, {p}, {}) && Touched(s.threads[t]) == {} && s'.held == s.held && PtrLive(s, p)
    && CallOf(s.threads[t]) == Freeing(p, s.threads[t].result)
    && CallOf(s'.threads[t]) == Released(s.threads[t].result)
  }

  lemma LossRefines(s: Sys, t: nat, s': Sys, p: int)
    requires LiveMoved(s, s', t, {p}, {}) && Loses(s, t, s', p)
    ensures Refined(s, t, s')
  {
    LossMap(Payloads(s), Payloads(s'), Touched(s.threads[t]), p);
    assert Releases(Payloads(s), Payloads(s'), CallOf(s.threads[t]), CallOf(s'.threads[t]));
  }

  /** t keeps its pointer p, perhaps in a larger block, and the call is decided. */
  ghost predicate Settles(s: Sys, t: nat, s': Sys, p: int) {
    && Trades(s, s', t, {}, {}) && Touched(s.threads[t]) <= {p} && s'.held == s.held
    && var th, th' := s.threads[t], s'.threads[t];
    && p != 0 && th.source == p && th'.result == p && th'.source == 0 && th'.n == th.n && th'.data == th.data
    && CallOf(th) == Moving(p, th.n) && CallOf(th') == Allocated(th.n, p)
  }

  lemma SettleRefines(s: Sys, t: nat, s': Sys, p: int)
    requires LiveMoved(s, s', t, {}, {}) && Settles(s, t, s', p) && PtrLive(s, p) && PtrLive(s', p)
    requires Extends(PayloadAt(s, p), PayloadAt(s', p)) && Covers(PayloadAt(s', p), s.threads[t].n)
    ensures Refined(s, t, s')
  {
    RewriteMap(Payloads(s), Payloads(s'), Touched(s.threads[t]), p);
    assert Resizes(Payloads(s), Payloads(s'), CallOf(s.threads[t]), CallOf(s'.threads[t]));
  }

  /** t copies the payload of its source over that of its result. */
  ghost predicate Duplicates(s: Sys, t: nat, s': Sys) {
    && Trades(s, s', t, {}, {}) && s'.held == s.held
    && var th := s.threads[t];
    && Touched(th) <= {th.result}
    && CallOf(th) == Moved(th.source, th.n, th.result) && CallOf(s'.threads[t]) == Freeing(th.source, th.result)
  }

  lemma CopyRefines(s: Sys, t: nat, s': Sys)
    requires LiveMoved(s, s', t, {}, {}) && Duplicates(s, t, s')
    requires var p, q := s.threads[t].source, s.threads[t].result;
             && PtrLive(s, p) && PtrLive(s, q) && PtrLive(s', q)
             && CopiedOver(PayloadAt(s, p), PayloadAt(s, q), PayloadAt(s', q))
    ensures Refined(s, t, s')
  {
    RewriteMap(Payloads(s), Payloads(s'), Touched(s.threads[t]), s.threads[t].result);
    assert Copies(Payloads(s), Payloads(s'), CallOf(s.threads[t]), CallOf(s'.threads[t]));
  }

  // ---- What the registers say about payloads -------------------------------------------------------

  /** What both states of a step offer. */
  ghost predicate Sides(cfg: Config, s: Sys, t: nat, s': Sys) {
    && MemoryOk(cfg, s) && MemoryOk(cfg, s') && OwnershipOk(s) && OwnershipOk(s')
    && Quiet(s, s', t) && Ready(s, t) && Ready(s', t)
  }

  /** The data remembered at the start of a realloc is the payload of its source. */
  lemma SourceData(cfg: Config, s: Sys, t: nat)
    requires MemoryOk(cfg, s) && Ready(s, t) && s.threads[t].source != 0
    ensures PtrLive(s, s.threads[t].source) && PayloadAt(s, s.threads[t].source) == s.threads[t].data
  {
    var th := s.threads[t];
    assert th.source in Regs(th);
    PayloadDomain(cfg, s, th.source);
    assert th.data.Keys == Offsets(Cap(s, th.source));
    forall k | k in th.data ensures PayloadAt(s, th.source)[k] == th.data[k] {
      assert k in Offsets(Cap(s, th.source));
    }
  }

  lemma ResultData(cfg: Config, s: Sys, t: nat)
    requires MemoryOk(cfg, s) && Ready(s, t) && s.threads[t].result != 0
    ensures PtrLive(s, s.threads[t].result) && Covers(PayloadAt(s, s.threads[t].result), s.threads[t].n)
    ensures s.threads[t].source == 0 ==> Extends(s.threads[t].data, PayloadAt(s, s.threads[t].result))
  {
    var th := s.threads[t];
    assert th.result in Regs(th);
    RoomFor(cfg, s, th.result, th.n);
    PayloadDomain(cfg, s, th.result);
    if th.source == 0 {
      forall k | k in th.data ensures k in PayloadAt(s, th.result) && PayloadAt(s, th.result)[k] == th.data[k] {
        assert k in th.data.Keys && k in Offsets(Cap(s, th.result));
      }
    }
  }

  // ---- Which shape each step has -------------------------------------------------------------------

  lemma PlainCase(cfg: Config, s: Sys, t: nat, s': Sys)
    requires Sides(cfg, s, t, s') && Plain(s, t, s')
    ensures Refined(s, t, s')
  {
    LiveMap(cfg, s, s', t, {}, {});
    PlainRefines(s, t, s');
  }

  lemma GainCase(cfg: Config, s: Sys, t: nat, s': Sys, p: int)
    requires Sides(cfg, s, t, s') && Gains(s, t, s', p)
    ensures Refined(s, t, s')
  {
    LiveMap(cfg, s, s', t, {}, {p});
    LiveAfter(s, s', t, {}, {p});
    RoomFor(cfg, s', p, s'.threads[t].n);
    GainRefines(s, t, s', p);
  }

  lemma LossCase(cfg: Config, s: Sys, t: nat, s': Sys, p: int)
    requires Sides(cfg, s, t, s') && Loses(s, t, s', p)
    ensures Refined(s, t, s')
  {
    LiveMap(cfg, s, s', t, {p}, {});
    LossRefines(s, t, s', p);
  }

  lemma SettleCase(cfg: Config, s: Sys, t: nat, s': Sys, p: int)
    requires Sides(cfg, s, t, s') && Settles(s, t, s', p)
    ensures Refined(s, t, s')
  {
    LiveMap(cfg, s, s', t, {}, {});
    SourceData(cfg, s, t);
    ResultData(cfg, s', t);
    SettleRefines(s, t, s', p);
  }

  lemma SameCallPlain(s: Sys, t: nat, s': Sys)
    requires t in s.threads && t in s'.threads && s'.threads == s.threads[t := s'.threads[t]] && s'.held == s.held
    requires SameCall(s.threads[t], s'.threads[t])
    ensures Plain(s, t, s')
  {
  }

  /** Steps that only move control, free slots or unused memory. */
  lemma QuietActions(cfg: Config, s: Sys, t: nat, s': Sys)
    requires Ready(s, t)
    requires Acquire(cfg, s, t, s') || Unlock(s, t, s') || RefillTake(s, t, s') || ExpandGranted(s, t, s')
             || ExpandRefused(cfg, s, t, s') || RefillFull(cfg, s, t, s') || Install(s, t, s')
             || ReadTag(cfg, s, t, s') || Detach(s, t, s') || SpliceBack(cfg, s, t, s')
    ensures Plain(s, t, s')
  {
    if Acquire(cfg, s, t, s') || Unlock(s, t, s') {
      LockActions(cfg, s, t, s');
    } else if ReadTag(cfg, s, t, s') || Detach(s, t, s') || SpliceBack(cfg, s, t, s') {
      FlushActions(cfg, s, t, s');
    } else {
      RefillActions(cfg, s, t, s');
    }
    SameCallPlain(s, t, s');
  }

  lemma BeginsMalloc(s: Sys, t: nat, n: int, s': Sys)
    requires StartMalloc(s, t, n, s') && Regs(s.threads[t]) == {}
    ensures Plain(s, t, s')
  {
  }

  lemma BeginsFree(s: Sys, t: nat, p: int, s': Sys)
    requires StartFree(s, t, p, s') && p != 0 && Regs(s.threads[t]) == {}
    ensures Plain(s, t, s')
  {
  }

  lemma BeginsRealloc(s: Sys, t: nat, p: int, n: int, s': Sys)
    requires StartRealloc(s, t, p, n, s') && p != 0 && Regs(s.threads[t]) == {}
    ensures Plain(s, t, s')
  {
  }

  lemma IdleEmpty(s: Sys, t: nat)
    requires t in s.threads && RegsOk(s, s.threads[t]) && s.threads[t].at.Idle?
    ensures Regs(s.threads[t]) == {}
  {
  }

  lemma MallocEnds(s: Sys, t: nat, s': Sys)
    requires Return(s, t, s') && s.threads[t].ptr == 0
    ensures Plain(s, t, s')
  {
  }

  lemma FreeEnds(s: Sys, t: nat, s': Sys)
    requires FreeReturn(s, t, s') && s.threads[t].ptr == 0 && s.threads[t].source == 0
    ensures Plain(s, t, s')
  {
  }

  // ---- my_malloc -------------------------------------------------------------------------------------

  /** t's registers when its malloc is served. */
  ghost predicate Served(s: Sys, t: nat, s': Sys, p: int) {
    && t in s.threads && t in s'.threads && s'.threads == s.threads[t := s'.threads[t]] && s'.held == s.held
    && var th, th' := s.threads[t], s'.threads[t];
    && IsMalloc(th.at) && IsReturning(th'.at) && th.result == 0 && th.ptr == 0
    && th' == th.(at := th'.at, i := th'.i, result := p)
  }

  lemma ServedGains(s: Sys, t: nat, s': Sys, p: int)
    requires Served(s, t, s', p) && p != 0 && !PtrLive(s, p) && s'.threads[t].n <= Cap(s', p)
    requires p !in Regs(s.threads[t])
    ensures Gains(s, t, s', p)
  {
  }

  lemma ServedFits(s: Sys, th: Thread)
    requires RegsOk(s, th) && th.result != 0
    ensures th.n <= Cap(s, th.result)
  {
  }

  lemma PopServes(cfg: Config, s: Sys, t: nat, s': Sys, p: Place, at': Label)
    requires Sides(cfg, s, t, s') && Pops(cfg, s, s', t, p, at') && s.threads[t].ptr == 0
    ensures Refined(s, t, s')
  {
    var x := At(s.sl, p)[0] + HEADER;
    PopMemory(cfg, s, s', t, p, at');
    assert s'.threads[t].result == x;
    ServedFits(s', s'.threads[t]);
    ServedGains(s, t, s', x);
    GainCase(cfg, s, t, s', x);
  }

  lemma MallocOwnsNone(s: Sys, t: nat)
    requires Ready(s, t) && IsMalloc(s.threads[t].at)
    ensures s.threads[t].ptr == 0
    ensures !IsReturning(s.threads[t].at) ==> s.threads[t].result == 0
  {
  }

  lemma DispatchRefines(cfg: Config, s: Sys, t: nat, s': Sys)
    requires Sides(cfg, s, t, s') && Dispatch(cfg, s, t, s')
    ensures Refined(s, t, s')
  {
    MallocOwnsNone(s, t);
    if Hits(cfg, s, t) {
      DispatchHit(cfg, s, t, s');
      PopServes(cfg, s, t, s', InCache(t, ClassFor(s.threads[t].n)), Returning);
    } else {
      DispatchSame(cfg, s, t, s');
      SameCallPlain(s, t, s');
      PlainCase(cfg, s, t, s');
    }
  }

  lemma DispatchSame(cfg: Config, s: Sys, t: nat, s': Sys)
    requires Dispatch(cfg, s, t, s') && !Hits(cfg, s, t)
    ensures SameCall(s.threads[t], s'.threads[t])
  {
  }

  lemma PoolTakeRefines(cfg: Config, s: Sys, t: nat, s': Sys)
    requires Sides(cfg, s, t, s') && PoolTake(cfg, s, t, s')
    ensures Refined(s, t, s')
  {
    MallocOwnsNone(s, t);
    PoolTakePops(cfg, s, t, s');
    PopServes(cfg, s, t, s', InPool(s.threads[t].i), Leave(PoolLock(cfg, s.threads[t].i), Returning));
  }

  lemma TakeNew(cfg: Config, s: Sys, t: nat, s': Sys)
    requires MemoryOk(cfg, s) && MemoryOk(cfg, s') && GeneralTake(cfg, s, t, s'.words, s') && 4096 < s.threads[t].n
    ensures s'.threads[t].result != 0 ==> !PtrLive(s, s'.threads[t].result)
  {
    var p := s'.threads[t].result;
    TakeStepOf(cfg, s, t, s');
    TakeLive(s, s', p, AlignUp(s.threads[t].n));
    GeneralPointers(cfg, s, s', {}, NonNull(p));
    assert p != 0 ==> p in NonNull(p);
  }

  lemma TakeServes(cfg: Config, s: Sys, t: nat, s': Sys)
    requires Ready(s, t) && GeneralTake(cfg, s, t, s'.words, s')
    ensures Served(s, t, s', s'.threads[t].result) && 4096 < s.threads[t].n
    ensures s'.threads[t].result == 0 ==> SameCall(s.threads[t], s'.threads[t])
  {
  }

  lemma GeneralTakeRefines(cfg: Config, s: Sys, t: nat, s': Sys)
    requires Sides(cfg, s, t, s') && GeneralTake(cfg, s, t, s'.words, s')
    ensures Refined(s, t, s')
  {
    var p := s'.threads[t].result;
    TakeServes(cfg, s, t, s');
    TakeNew(cfg, s, t, s');
    if p == 0 {
      SameCallPlain(s, t, s');
      PlainCase(cfg, s, t, s');
    } else {
      ServedFits(s', s'.threads[t]);
      ServedGains(s, t, s', p);
      GainCase(cfg, s, t, s', p);
    }
  }

  // ---- my_free ---------------------------------------------------------------------------------------

  lemma FreedLoses(s: Sys, t: nat, s': Sys)
    requires Ready(s, t) && IsFreeing(s.threads[t].at)
    requires t in s'.threads && s'.threads == s.threads[t := s'.threads[t]] && s'.held == s.held
    requires IsFreed(s'.threads[t].at) && s'.threads[t] == s.threads[t].(at := s'.threads[t].at, ptr := 0)
    ensures Loses(s, t, s', s.threads[t].ptr)
  {
    assert s.threads[t].ptr in Regs(s.threads[t]);
  }

  lemma FreeRefines(cfg: Config, s: Sys, t: nat, s': Sys)
    requires Sides(cfg, s, t, s')
    requires CachePush(s, t, s') || PoolPush(cfg, s, t, s') || GeneralRelease(cfg, s, t, s'.words, s')
    ensures Refined(s, t, s')
  {
    FreedLoses(s, t, s');
    LossCase(cfg, s, t, s', s.threads[t].ptr);
  }

  // ---- my_realloc ------------------------------------------------------------------------------------

  /** t's registers when its realloc keeps the pointer. */
  ghost predicate KeptPointer(s: Sys, t: nat, s': Sys) {
    && t in s.threads && t in s'.threads && s'.threads == s.threads[t := s'.threads[t]] && s'.held == s.held
    && var th, th' := s.threads[t], s'.threads[t];
    && IsRealloc(th.at) && IsReturning(th'.at)
    && th' == th.(at := th'.at, i := th'.i, result := th.source, source := 0)
  }

  lemma KeptSettles(s: Sys, t: nat, s': Sys)
    requires Ready(s, t) && KeptPointer(s, t, s')
    ensures Settles(s, t, s', s.threads[t].source)
  {
  }

  lemma RouteShape(cfg: Config, s: Sys, t: nat, s': Sys)
    requires ReallocRoute(cfg, s, t, s')
    ensures KeptPointer(s, t, s') || SameCall(s.threads[t], s'.threads[t])
  {
  }

  /** A realloc that has to move: nothing changes but the size t remembers. */
  ghost predicate MovesOn(s: Sys, t: nat, s': Sys) {
    && t in s.threads && t in s'.threads && s.threads[t].at.Resizing? && IsMalloc(s'.threads[t].at)
    && s' == Put(s, t, s.threads[t].(at := s'.threads[t].at, size := s'.threads[t].size))
  }

  lemma ResizeShape(cfg: Config, s: Sys, t: nat, s': Sys)
    requires Resize(cfg, s, t, s'.words, s')
    ensures KeptPointer(s, t, s') || MovesOn(s, t, s')
  {
  }

  lemma MovesOnCall(s: Sys, t: nat, s': Sys)
    requires Ready(s, t) && MovesOn(s, t, s')
    ensures Trades(s, s', t, {}, {}) && CallOf(s'.threads[t]) == CallOf(s.threads[t]) && s'.held == s.held
    ensures Kept(s, s', s.threads[t].source) && Touched(s.threads[t]) == {s.threads[t].source}
  {
  }

  lemma MovesOnRefines(cfg: Config, s: Sys, t: nat, s': Sys)
    requires Sides(cfg, s, t, s') && MovesOn(s, t, s')
    ensures Refined(s, t, s')
  {
    var p := s.threads[t].source;
    MovesOnCall(s, t, s');
    LiveMap(cfg, s, s', t, {}, {});
    SourceData(cfg, s, t);
    KeptPayload(cfg, s, s', p);
    MovesOnMap(s, t, s');
  }

  lemma MovesOnMap(s: Sys, t: nat, s': Sys)
    requires LiveMoved(s, s', t, {}, {}) && Touched(s.threads[t]) == {s.threads[t].source}
    requires PtrLive(s, s.threads[t].source) && PtrLive(s', s.threads[t].source)
    requires PayloadAt(s', s.threads[t].source) == PayloadAt(s, s.threads[t].source)
    ensures Payloads(s') == Payloads(s)
  {
    SameMap(Payloads(s), Payloads(s'), {});
  }

  lemma ReallocRefines(cfg: Config, s: Sys, t: nat, s': Sys)
    requires Sides(cfg, s, t, s') && (ReallocRoute(cfg, s, t, s') || Resize(cfg, s, t, s'.words, s'))
    ensures Refined(s, t, s')
  {
    if ReallocRoute(cfg, s, t, s') {
      RouteShape(cfg, s, t, s');
    } else {
      ResizeShape(cfg, s, t, s');
    }
    if KeptPointer(s, t, s') {
      KeptSettles(s, t, s');
      SettleCase(cfg, s, t, s', s.threads[t].source);
    } else if MovesOn(s, t, s') {
      MovesOnRefines(cfg, s, t, s');
    } else {
      RouteSame(cfg, s, t, s');
      PlainCase(cfg, s, t, s');
    }
  }

  lemma RouteSame(cfg: Config, s: Sys, t: nat, s': Sys)
    requires ReallocRoute(cfg, s, t, s') && SameCall(s.threads[t], s'.threads[t])
    ensures Plain(s, t, s')
  {
    SameCallPlain(s, t, s');
  }

  /** The payload d is what the words from p on say. */
  lemma PayloadSpells(cfg: Config, s: Sys, p: int)
    requires MemoryOk(cfg, s) && PtrLive(s, p)
    ensures DataAt(s.words, p, PayloadAt(s, p)) && PayloadAt(s, p).Keys == Offsets(Cap(s, p))
  {
    PayloadDomain(cfg, s, p);
  }

  lemma CopyFills(words: Words, words': Words, q: int, n: int, d: Payload, e: Payload, e': Payload)
    requires DataAt(words, q, e) && DataAt(words', q, e') && DataAt(words', q, d)
    requires d.Keys == Offsets(n) && d.Keys <= e.Keys && e'.Keys == e.Keys
    requires forall k | k in e :: 0 <= k && k % 8 == 0
    requires forall w | w in words && !(q <= w < q + n) :: w in words' && words'[w] == words[w]
    ensures CopiedOver(d, e, e')
  {
    forall k | k in e ensures e'[k] == if k in d then d[k] else e[k] {
      assert k in e' && words'[q + k] == e'[k];
      assert k !in d ==> k !in Offsets(n);
    }
  }

  lemma OffsetsAre(d: Payload, cap: int)
    requires d.Keys == Offsets(cap)
    ensures forall k | k in d :: 0 <= k && k % 8 == 0
  {
    forall k | k in d ensures k in Offsets(cap) {
      assert k in d.Keys;
    }
  }

  /** The copy: every word of the old payload arrives, and no other word of the new one
      changes. */
  lemma CopyPayload(cfg: Config, s: Sys, t: nat, s': Sys)
    requires Sides(cfg, s, t, s') && Copy(s, t, s')
    ensures var p, q := s.threads[t].source, s.threads[t].result;
            && PtrLive(s, p) && PtrLive(s, q) && PtrLive(s', q)
            && CopiedOver(PayloadAt(s, p), PayloadAt(s, q), PayloadAt(s', q))
  {
    var th := s.threads[t];
    SourceData(cfg, s, t);
    ResultData(cfg, s, t);
    ResultData(cfg, s', t);
    PayloadSpells(cfg, s, th.result);
    PayloadSpells(cfg, s', th.result);
    CopyOffsets(s, s', th);
    OffsetsAre(PayloadAt(s, th.result), Cap(s, th.result));
    CopyArrives(cfg, s, t, s');
    CopyFills(s.words, s'.words, th.result, th.size, th.data, PayloadAt(s, th.result), PayloadAt(s', th.result));
  }

  lemma CopyOffsets(s: Sys, s': Sys, th: Thread)
    requires RegsOk(s, th) && th.at.Copying? && s'.sl == s.sl && s'.heap == s.heap
    ensures th.data.Keys == Offsets(th.size) && Offsets(th.size) <= Offsets(Cap(s, th.result))
    ensures Cap(s', th.result) == Cap(s, th.result)
  {
  }

  lemma CopyArrives(cfg: Config, s: Sys, t: nat, s': Sys)
    requires MemoryOk(cfg, s) && Ready(s, t) && Copy(s, t, s')
    ensures var th := s.threads[t];
            && DataAt(s'.words, th.result, th.data)
            && forall w | w in s.words && !(th.result <= w < th.result + th.size) :: w in s'.words && s'.words[w] == s.words[w]
  {
    var th := s.threads[t];
    CopySizes(s, th);
    assert th.result in Regs(th);
    LiveNonNull(cfg, s, th.result);
    CopyMoves(s.words, th.source, th.result, th.size, th.data);
  }

  lemma CopyShape(s: Sys, t: nat, s': Sys)
    requires Ready(s, t) && Copy(s, t, s')
    ensures Duplicates(s, t, s')
  {
  }

  lemma CopyCase(cfg: Config, s: Sys, t: nat, s': Sys)
    requires Sides(cfg, s, t, s') && Copy(s, t, s')
    ensures Refined(s, t, s')
  {
    CopyShape(s, t, s');
    LiveMap(cfg, s, s', t, {}, {});
    CopyPayload(cfg, s, t, s');
    CopyRefines(s, t, s');
  }

  // ---- Refinement ------------------------------------------------------------------------------------

  lemma CallBeginsOrEnds(cfg: Config, s: Sys, t: nat, s': Sys)
    requires Sides(cfg, s, t, s')
    requires (exists n :: StartMalloc(s, t, n, s')) || (exists p :: StartFree(s, t, p, s'))
             || (exists p, n :: StartRealloc(s, t, p, n, s')) || Return(s, t, s') || FreeReturn(s, t, s')
    ensures Refined(s, t, s')
  {
    if n :| StartMalloc(s, t, n, s') {
      IdleEmpty(s, t);
      BeginsMalloc(s, t, n, s');
    } else if p :| StartFree(s, t, p, s') {
      IdleEmpty(s, t);
      LiveNonNull(cfg, s, p);
      BeginsFree(s, t, p, s');
    } else if p, n :| StartRealloc(s, t, p, n, s') {
      IdleEmpty(s, t);
      LiveNonNull(cfg, s, p);
      BeginsRealloc(s, t, p, n, s');
    } else if Return(s, t, s') {
      MallocOwnsNone(s, t);
      MallocEnds(s, t, s');
    } else {
      FreedOwnsNone(s, t);
      FreeEnds(s, t, s');
    }
    PlainCase(cfg, s, t, s');
  }

  lemma FreedOwnsNone(s: Sys, t: nat)
    requires Ready(s, t) && s.threads[t].at.Freed?
    ensures s.threads[t].ptr == 0 && s.threads[t].source == 0
  {
  }

  lemma CallGoesOn(cfg: Config, s: Sys, t: nat, s': Sys)
    requires Sides(cfg, s, t, s')
    requires Acquire(cfg, s, t, s') || Unlock(s, t, s') || RefillTake(s, t, s') || ExpandGranted(s, t, s')
             || ExpandRefused(cfg, s, t, s') || RefillFull(cfg, s, t, s') || Install(s, t, s')
             || ReadTag(cfg, s, t, s') || Detach(s, t, s') || SpliceBack(cfg, s, t, s')
    ensures Refined(s, t, s')
  {
    QuietActions(cfg, s, t, s');
    PlainCase(cfg, s, t, s');
  }

  lemma StepSides(cfg: Config, s: Sys, t: nat, s': Sys)
    requires Inv(cfg, s) && ThreadStep(cfg, s, t, s')
    ensures Sides(cfg, s, t, s')
  {
    StepKeeps(cfg, s, t, s');
    IsReady(cfg, s, t);
    IsReady(cfg, s', t);
  }

  /** Every step of every thread is a step of the atomic allocator, or none at all. */
  lemma StepRefines(cfg: Config, s: Sys, t: nat, s': Sys)
    requires Inv(cfg, s) && ThreadStep(cfg, s, t, s')
    ensures CallStep(Abs(s), t, Abs(s'))
  {
    StepSides(cfg, s, t, s');
    if Dispatch(cfg, s, t, s') {
      DispatchRefines(cfg, s, t, s');
    } else if PoolTake(cfg, s, t, s') {
      PoolTakeRefines(cfg, s, t, s');
    } else if GeneralTake(cfg, s, t, s'.words, s') {
      GeneralTakeRefines(cfg, s, t, s');
    } else if CachePush(s, t, s') || PoolPush(cfg, s, t, s') || GeneralRelease(cfg, s, t, s'.words, s') {
      FreeRefines(cfg, s, t, s');
    } else if ReallocRoute(cfg, s, t, s') || Resize(cfg, s, t, s'.words, s') {
      ReallocRefines(cfg, s, t, s');
    } else if Copy(s, t, s') {
      CopyCase(cfg, s, t, s');
    } else if Acquire(cfg, s, t, s') || Unlock(s, t, s') || RefillTake(s, t, s') || ExpandGranted(s, t, s')
             || ExpandRefused(cfg, s, t, s') || RefillFull(cfg, s, t, s') || Install(s, t, s')
             || ReadTag(cfg, s, t, s') || Detach(s, t, s') || SpliceBack(cfg, s, t, s') {
      CallGoesOn(cfg, s, t, s');
    } else {
      CallBeginsOrEnds(cfg, s, t, s');
    }
    RefinedStep(s, t, s');
  }

  /** A client's write is a write to the payload it holds. */
  lemma ClientRefines(cfg: Config, s: Sys, p: int, k: int, value: int, s': Sys)
    requires Inv(cfg, s) && ClientWrite(s, p, k, value, s')
    ensures Writes(Abs(s), Abs(s'), p, k, value)
  {
    ClientWriteKeeps(cfg, s, p, k, value, s');
    assert PtrLive(s, p) && forall q :: PtrLive(s', q) == PtrLive(s, q);
    forall q | PtrLive(s, q) && q != p ensures PayloadAt(s', q) == PayloadAt(s, q) {
      KeptPayload(cfg, s, s', q);
    }
    PayloadSpells(cfg, s, p);
    PayloadSpells(cfg, s', p);
    WrittenPayload(s, p, k, value, s');
    LiveKeys(s, s', {}, {});
    RewriteMap(Payloads(s), Payloads(s'), {p}, p);
  }

  lemma WrittenPayload(s: Sys, p: int, k: int, value: int, s': Sys)
    requires ClientWrite(s, p, k, value, s')
    requires PayloadAt(s, p).Keys == PayloadAt(s', p).Keys == Offsets(Cap(s, p))
    ensures k in PayloadAt(s, p) && PayloadAt(s', p) == PayloadAt(s, p)[k := value]
  {
    var d, d' := PayloadAt(s, p), PayloadAt(s', p);
    assert k in Offsets(Cap(s, p));
    assert d'.Keys == d[k := value].Keys;
    forall j | j in d' ensures d'[j] == d[k := value][j] {
      assert j in Offsets(Cap(s, p));
    }
  }

  /** The headline: any interleaving of any number of threads, in any of the three stages,
      behaves like the atomic allocator. */
  lemma RunRefines(cfg: Config, run: seq<Sys>, k: nat)
    requires IsRun(cfg, run) && k + 1 < |run|
    ensures AtomicInit(Abs(run[0])) && AtomicNext(Abs(run[k]), Abs(run[k + 1]))
  {
    RunInv(cfg, run, k);
    InitRefines(cfg, run[0]);
    assert Follows(cfg, run, k);
    var s, s' := run[k], run[k + 1];
    if t :| ThreadStep(cfg, s, t, s') {
      StepRefines(cfg, s, t, s');
    } else {
      var p, j, value :| ClientWrite(s, p, j, value, s');
      ClientRefines(cfg, s, p, j, value, s');
    }
  }

  lemma InitRefines(cfg: Config, s: Sys)
    requires Init(cfg, s)
    ensures AtomicInit(Abs(s))
  {
    assert forall p :: p !in Payloads(s);
  }
}
