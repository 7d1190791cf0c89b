/** The contracts of my_malloc and my_realloc over whole calls, whatever other threads do in
    between. */
module ThreadContracts {
  import opened Machine
  import opened BlockTags
  import opened FreeLists
  import opened HeapModel
  import opened Chains
  import opened MemoryPool
  import opened SlotSystem
  import opened Threads
  import opened ThreadInvariant
  import opened ThreadProof
  import opened ThreadHeapProof
  import opened ThreadLaws
  import HL = HeapLaws

  /** Thread t is inside one call in all of run[i..j]. */
  ghost predicate InCall(run: seq<Sys>, t: nat, i: int, j: int) {
    && 0 <= i <= j < |run|
    && forall m {:trigger run[m]} | i <= m <= j :: t in run[m].threads && !run[m].threads[t].at.Idle?
  }

  // ---- What a call does not forget -----------------------------------------------------------------

  /** The request and the data remembered stay; a source is given up only for a result; a
      result stays. */
  ghost predicate Remembers(th: Thread, th': Thread) {
    && th'.n == th.n && th'.data == th.data
    && (th'.source == th.source || (th'.source == 0 && th'.result != 0))
    && (th.result != 0 ==> th'.result != 0)
  }

  lemma LockRemembers(cfg: Config, s: Sys, t: nat, s': Sys)
    requires Acquire(cfg, s, t, s') || Unlock(s, t, s')
    ensures t in s'.threads && Remembers(s.threads[t], s'.threads[t])
  {
  }

  lemma RouteRemembers(cfg: Config, s: Sys, t: nat, s': Sys)
    requires (ReadTag(cfg, s, t, s') || ReallocRoute(cfg, s, t, s')) && Ready(s, t)
    ensures t in s'.threads && Remembers(s.threads[t], s'.threads[t])
  {
  }

  lemma ControlRemembers(cfg: Config, s: Sys, t: nat, s': Sys)
    requires ControlAct(cfg, s, t, s') && Ready(s, t) && !s.threads[t].at.Idle?
    requires t in s'.threads && !s'.threads[t].at.Idle?
    ensures Remembers(s.threads[t], s'.threads[t])
  {
    if Acquire(cfg, s, t, s') || Unlock(s, t, s') {
      LockRemembers(cfg, s, t, s');
    } else if ReadTag(cfg, s, t, s') || ReallocRoute(cfg, s, t, s') {
      RouteRemembers(cfg, s, t, s');
    }
  }

  lemma DispatchRemembers(cfg: Config, s: Sys, t: nat, s': Sys)
    requires Dispatch(cfg, s, t, s') && s.threads[t].result == 0
    ensures t in s'.threads && Remembers(s.threads[t], s'.threads[t])
  {
  }

  lemma PoolTakeRemembers(cfg: Config, s: Sys, t: nat, s': Sys)
    requires PoolTake(cfg, s, t, s') && s.threads[t].result == 0
    ensures t in s'.threads && Remembers(s.threads[t], s'.threads[t])
  {
  }

  lemma NotServed(s: Sys, t: nat)
    requires MallocClean(s, t) && (s.threads[t].at.Calling? || s.threads[t].at.PoolAlloc?)
    ensures s.threads[t].result == 0
  {
  }

  lemma PushRemembers(cfg: Config, s: Sys, t: nat, s': Sys)
    requires CachePush(s, t, s') || PoolPush(cfg, s, t, s')
    ensures t in s'.threads && Remembers(s.threads[t], s'.threads[t])
  {
  }

  lemma SlotRemembers(cfg: Config, s: Sys, t: nat, s': Sys)
    requires SlotAct(cfg, s, t, s') && t in s'.threads && MallocClean(s, t)
    ensures Remembers(s.threads[t], s'.threads[t])
  {
    if Dispatch(cfg, s, t, s') {
      NotServed(s, t);
      DispatchRemembers(cfg, s, t, s');
    } else if PoolTake(cfg, s, t, s') {
      NotServed(s, t);
      PoolTakeRemembers(cfg, s, t, s');
    } else if CachePush(s, t, s') || PoolPush(cfg, s, t, s') {
      PushRemembers(cfg, s, t, s');
    } else if Detach(s, t, s') || SpliceBack(cfg, s, t, s') {
      FlushActions(cfg, s, t, s');
    } else {
      RefillActions(cfg, s, t, s');
    }
  }

  lemma HeapRemembers(cfg: Config, s: Sys, t: nat, s': Sys)
    requires HeapAct(cfg, s, t, s') && t in s'.threads && MallocClean(s, t)
    requires s.threads[t].at.Copying? ==> s.threads[t].result != 0
    requires s.threads[t].at.Resizing? ==> s.threads[t].source != 0
    ensures Remembers(s.threads[t], s'.threads[t])
  {
  }

  /** A malloc that has not been served has no result. */
  ghost predicate MallocClean(s: Sys, t: nat) {
    && t in s.threads
    && (IsMalloc(s.threads[t].at) && !IsReturning(s.threads[t].at) ==> s.threads[t].result == 0)
  }

  lemma CallRemembers(cfg: Config, s: Sys, s': Sys, t: nat)
    requires Inv(cfg, s) && Next(cfg, s, s') && t in s.threads && t in s'.threads
    requires !s.threads[t].at.Idle? && !s'.threads[t].at.Idle?
    ensures Remembers(s.threads[t], s'.threads[t])
  {
    if u :| ThreadStep(cfg, s, u, s') {
      StepKeeps(cfg, s, u, s');
      IsReady(cfg, s, t);
      if u == t {
        StepActs(cfg, s, t, s');
        ReadyFacts(s, t);
        if ControlAct(cfg, s, t, s') {
          ControlRemembers(cfg, s, t, s');
        } else if SlotAct(cfg, s, t, s') {
          SlotRemembers(cfg, s, t, s');
        } else {
          HeapRemembers(cfg, s, t, s');
        }
      }
    }
  }

  lemma ReadyFacts(s: Sys, t: nat)
    requires Ready(s, t)
    ensures MallocClean(s, t)
    ensures s.threads[t].at.Copying? ==> s.threads[t].result != 0
    ensures s.threads[t].at.Resizing? ==> s.threads[t].source != 0
  {
  }

  // ---- my_realloc -----------------------------------------------------------------------------------

  /** A realloc of p to n bytes that remembers p's data. */
  ghost predicate Reallocating(th: Thread, p: int, n: int, data: map<int, int>) {
    && th.n == n && th.data == data
    && (th.source == p || (th.source == 0 && th.result != 0))
  }

  lemma StartRemembers(s: Sys, t: nat, p: int, n: int, s': Sys)
    requires StartRealloc(s, t, p, n, s')
    ensures t in s'.threads && Reallocating(s'.threads[t], p, n, Snapshot(s.words, p, Cap(s, p)))
  {
  }

  lemma KeepsReallocating(th: Thread, th': Thread, p: int, n: int, data: map<int, int>)
    requires Reallocating(th, p, n, data) && Remembers(th, th')
    ensures Reallocating(th', p, n, data)
  {
  }

  lemma {:induction false} ReallocRemembers(cfg: Config, run: seq<Sys>, t: nat, p: int, n: int, i: nat, j: nat)
    requires IsRun(cfg, run) && i < j && InCall(run, t, i + 1, j) && StartRealloc(run[i], t, p, n, run[i + 1])
    ensures Reallocating(run[j].threads[t], p, n, Snapshot(run[i].words, p, Cap(run[i], p)))
    decreases j
  {
    StartRemembers(run[i], t, p, n, run[i + 1]);
    if j <= i + 1 {
    } else {
      assert InCall(run, t, i + 1, j - 1);
      ReallocRemembers(cfg, run, t, p, n, i, j - 1);
      StaysInCall(cfg, run, t, j - 1);
      KeepsReallocating(run[j - 1].threads[t], run[j].threads[t], p, n, Snapshot(run[i].words, p, Cap(run[i], p)));
    }
  }

  lemma StaysInCall(cfg: Config, run: seq<Sys>, t: nat, k: nat)
    requires IsRun(cfg, run) && InCall(run, t, k, k + 1)
    ensures Remembers(run[k].threads[t], run[k + 1].threads[t])
  {
    RunInv(cfg, run, k);
    assert Follows(cfg, run, k);
    CallRemembers(cfg, run[k], run[k + 1], t);
  }

  /** A realloc of p is about to return. */
  ghost predicate Returns(s: Sys, t: nat) {
    && t in s.threads
    && var th := s.threads[t];
    th.at.Freed? || (th.at.Returning? && (th.source == 0 || th.result == 0))
  }

  /** What my_realloc promises about the payload of p, as it was at the call (in state s), when
      it is about to return to t (in state s'). */
  ghost predicate Honoured(s: Sys, s': Sys, t: nat, p: int, n: int)
    requires t in s'.threads
  {
    var result, before := s'.threads[t].result, Snapshot(s.words, p, Cap(s, p));
    && before.Keys == Offsets(Cap(s, p))
    && if result != 0 then
         PtrLive(s', result) && n <= Cap(s', result) && DataAt(s'.words, result, before)
       else
         PtrLive(s', p) && Owns(s', t, p) && Cap(s', p) == Cap(s, p) && DataAt(s'.words, p, before)
  }

  /** my_realloc of p, from its call at step i to step j where it is about to return: with a
      result, every word the payload of p held at the call is at the same offset of the result,
      which has room for the request; with null, p is still live, of the same size and with the
      same words. Other threads may have run at will in between. */
  lemma ReallocContract(cfg: Config, run: seq<Sys>, t: nat, p: int, n: int, i: nat, j: nat)
    requires IsRun(cfg, run) && i < j && InCall(run, t, i + 1, j) && StartRealloc(run[i], t, p, n, run[i + 1])
    requires Returns(run[j], t)
    ensures Honoured(run[i], run[j], t, p, n)
  {
    ReallocRemembers(cfg, run, t, p, n, i, j);
    RunInv(cfg, run, i);
    RunInv(cfg, run, j);
    ReallocOutcome(cfg, run[i], run[j], t, p, n);
  }

  lemma ReallocOutcome(cfg: Config, s: Sys, s': Sys, t: nat, p: int, n: int)
    requires Inv(cfg, s) && Inv(cfg, s') && p in s.held && Returns(s', t)
    requires Reallocating(s'.threads[t], p, n, Snapshot(s.words, p, Cap(s, p)))
    ensures Honoured(s, s', t, p, n)
  {
    HeldPayload(cfg, s, p);
    IsReady(cfg, s', t);
    ReallocEnds(s', t, p, n, Snapshot(s.words, p, Cap(s, p)));
    if s'.threads[t].result == 0 {
      LiveNonNull(cfg, s', p);
      CapAligned(cfg, s', p);
      SameOffsets(s, s', p);
    }
  }

  lemma HeldPayload(cfg: Config, s: Sys, p: int)
    requires Inv(cfg, s) && p in s.held
    ensures PtrLive(s, p) && Snapshot(s.words, p, Cap(s, p)).Keys == Offsets(Cap(s, p))
    ensures p != 0 && 0 < Cap(s, p) && Cap(s, p) % ALIGNMENT == 0
  {
    LiveNonNull(cfg, s, p);
    CapAligned(cfg, s, p);
  }

  lemma ReallocEnds(s: Sys, t: nat, p: int, n: int, data: map<int, int>)
    requires Ready(s, t) && Reallocating(s.threads[t], p, n, data) && p != 0
    requires var th := s.threads[t]; th.at.Freed? || (th.at.Returning? && (th.source == 0 || th.result == 0))
    ensures var th := s.threads[t];
            if th.result != 0 then
              PtrLive(s, th.result) && n <= Cap(s, th.result) && DataAt(s.words, th.result, data)
            else
              PtrLive(s, p) && Owns(s, t, p) && DataAt(s.words, p, data) && data.Keys == Offsets(Cap(s, p))
  {
    var th := s.threads[t];
    assert th.result != 0 ==> th.result in Regs(th);
    assert th.source != 0 ==> th.source in Regs(th);
  }

  /** Sizes are multiples of the alignment, so the word offsets determine the size. */
  lemma SameOffsets(s: Sys, s': Sys, p: int)
    requires Offsets(Cap(s, p)) == Offsets(Cap(s', p))
    requires 0 < Cap(s, p) && 0 < Cap(s', p) && Cap(s, p) % ALIGNMENT == 0 && Cap(s', p) % ALIGNMENT == 0
    ensures Cap(s', p) == Cap(s, p)
  {
    LastOffset(Cap(s, p));
    LastOffset(Cap(s', p));
    assert Cap(s, p) - 8 in Offsets(Cap(s', p)) && Cap(s', p) - 8 in Offsets(Cap(s, p));
  }

  lemma LastOffset(cap: int)
    requires 0 < cap && cap % ALIGNMENT == 0
    ensures cap - 8 in Offsets(cap)
  {
  }

  // ---- When the pointer stays -------------------------------------------------------------------------

  /** Exactly when my_realloc returns the pointer it was given: the slot is large enough, or the
      block is, or the free block right after it ends far enough on. */
  ghost predicate StaysPut(s: Sys, p: int, n: int) {
    if p - HEADER in s.sl.live then n <= Cap(s, p)
    else
      && p - HEADER in s.heap.blocks && 0 <= n <= MAX_REQUEST
      && (AlignUp(n) <= s.heap.blocks[p - HEADER].size || RoomBeside(s.heap.blocks, p - HEADER, AlignUp(n)))
  }

  /** The step that settles whether t's realloc keeps its pointer: the routing of a pooled pointer,
      the locked half of a general one. */
  ghost predicate Decides(cfg: Config, s: Sys, t: nat, s': Sys) {
    && t in s.threads
    && ((ReallocRoute(cfg, s, t, s') && s.threads[t].source - HEADER in s.sl.live) || Resize(cfg, s, t, s'.words, s'))
  }

  ghost predicate Undecided(th: Thread, p: int, n: int) {
    IsRealloc(th.at) && th.source == p && th.result == 0 && th.n == n
  }

  ghost predicate KeptIt(th: Thread, p: int) {
    IsReturning(th.at) && th.source == 0 && th.result == p
  }

  ghost predicate MovesOff(th: Thread, p: int) {
    && !IsRealloc(th.at) && th.result != p
    && (th.source == p || (th.source == 0 && !IsMalloc(th.at)))
  }

  lemma RouteDecides(cfg: Config, s: Sys, t: nat, s': Sys, p: int, n: int)
    requires MemoryOk(cfg, s) && Ready(s, t) && ReallocRoute(cfg, s, t, s') && Undecided(s.threads[t], p, n)
    ensures t in s'.threads && p != 0
    ensures if p - HEADER !in s.sl.live then Undecided(s'.threads[t], p, n)
            else if StaysPut(s, p, n) then KeptIt(s'.threads[t], p)
            else MovesOff(s'.threads[t], p)
  {
    assert p in Regs(s.threads[t]);
    TagRoutes(cfg, s, p);
  }

  lemma ResizeDecides(cfg: Config, s: Sys, t: nat, s': Sys, p: int, n: int)
    requires MemoryOk(cfg, s) && Ready(s, t) && Resize(cfg, s, t, s'.words, s') && Undecided(s.threads[t], p, n)
    ensures t in s'.threads && p != 0
    ensures if StaysPut(s, p, n) then KeptIt(s'.threads[t], p) else MovesOff(s'.threads[t], p)
  {
    assert p in Regs(s.threads[t]);
    CanGrowIs(s.heap, p - HEADER, AlignUp(n));
    BlockCap(cfg, s, p);
  }

  /** The first half of a realloc, until it is decided. */
  lemma UndecidedStep(cfg: Config, s: Sys, t: nat, s': Sys, p: int, n: int)
    requires Inv(cfg, s) && ThreadStep(cfg, s, t, s') && t in s.threads && Undecided(s.threads[t], p, n)
    ensures t in s'.threads
    ensures if !Decides(cfg, s, t, s') then Undecided(s'.threads[t], p, n)
            else if StaysPut(s, p, n) then KeptIt(s'.threads[t], p) else MovesOff(s'.threads[t], p)
  {
    IsReady(cfg, s, t);
    if ReallocRoute(cfg, s, t, s') {
      RouteDecides(cfg, s, t, s', p, n);
    } else if Resize(cfg, s, t, s'.words, s') {
      ResizeDecides(cfg, s, t, s', p, n);
    } else {
      OnlyAcquires(cfg, s, t, s', p, n);
    }
  }

  lemma OnlyAcquires(cfg: Config, s: Sys, t: nat, s': Sys, p: int, n: int)
    requires ThreadStep(cfg, s, t, s') && t in s.threads && Undecided(s.threads[t], p, n)
    requires !ReallocRoute(cfg, s, t, s') && !Resize(cfg, s, t, s'.words, s')
    ensures t in s'.threads && Undecided(s'.threads[t], p, n)
  {
  }

  /** What happens to a source and a result once the pointer is not kept. */
  ghost predicate Trails(th: Thread, th': Thread) {
    && !IsRealloc(th'.at)
    && ((th'.source == th.source && th.source != 0) || (th'.source == 0 && th'.result == th.result && !IsMalloc(th'.at)))
  }

  lemma LockTrails(cfg: Config, s: Sys, t: nat, s': Sys, p: int)
    requires (Acquire(cfg, s, t, s') || Unlock(s, t, s')) && Sensible(s.threads[t].at) && MovesOff(s.threads[t], p) && p != 0
    ensures t in s'.threads && Trails(s.threads[t], s'.threads[t])
  {
  }

  lemma ReadTrails(cfg: Config, s: Sys, t: nat, s': Sys, p: int)
    requires (ReadTag(cfg, s, t, s') || ReallocRoute(cfg, s, t, s')) && MovesOff(s.threads[t], p) && p != 0
    ensures t in s'.threads && Trails(s.threads[t], s'.threads[t])
  {
  }

  lemma ControlTrails(cfg: Config, s: Sys, t: nat, s': Sys, p: int)
    requires ControlAct(cfg, s, t, s') && RegsOk(s, s.threads[t]) && MovesOff(s.threads[t], p) && p != 0
    requires t in s'.threads && !s.threads[t].at.Idle? && !s'.threads[t].at.Idle?
    ensures Trails(s.threads[t], s'.threads[t])
  {
    if Acquire(cfg, s, t, s') || Unlock(s, t, s') {
      LockTrails(cfg, s, t, s', p);
    } else if ReadTag(cfg, s, t, s') || ReallocRoute(cfg, s, t, s') {
      ReadTrails(cfg, s, t, s', p);
    }
  }

  lemma RefillTrails(cfg: Config, s: Sys, t: nat, s': Sys, p: int)
    requires RefillTake(s, t, s') || ExpandGranted(s, t, s') || ExpandRefused(cfg, s, t, s')
             || RefillFull(cfg, s, t, s') || Install(s, t, s')
    requires MovesOff(s.threads[t], p) && p != 0
    ensures t in s'.threads && Trails(s.threads[t], s'.threads[t])
  {
  }

  lemma TakeTrails(cfg: Config, s: Sys, t: nat, s': Sys, p: int)
    requires Dispatch(cfg, s, t, s') || PoolTake(cfg, s, t, s')
    requires MovesOff(s.threads[t], p) && p != 0
    ensures t in s'.threads && Trails(s.threads[t], s'.threads[t])
  {
  }

  lemma GiveTrails(cfg: Config, s: Sys, t: nat, s': Sys, p: int)
    requires CachePush(s, t, s') || Detach(s, t, s') || SpliceBack(cfg, s, t, s') || PoolPush(cfg, s, t, s')
    requires MovesOff(s.threads[t], p) && p != 0
    ensures t in s'.threads && Trails(s.threads[t], s'.threads[t])
  {
  }

  lemma HeapTrails(cfg: Config, s: Sys, t: nat, s': Sys, p: int)
    requires HeapAct(cfg, s, t, s') && MovesOff(s.threads[t], p) && p != 0
    ensures t in s'.threads && Trails(s.threads[t], s'.threads[t])
  {
  }

  lemma StepTrails(cfg: Config, s: Sys, t: nat, s': Sys, p: int)
    requires Inv(cfg, s) && ThreadStep(cfg, s, t, s') && t in s.threads && MovesOff(s.threads[t], p) && p != 0
    requires t in s'.threads && !s.threads[t].at.Idle? && !s'.threads[t].at.Idle?
    ensures Trails(s.threads[t], s'.threads[t])
  {
    assert ThreadOk(s, t);
    StepActs(cfg, s, t, s');
    if ControlAct(cfg, s, t, s') {
      ControlTrails(cfg, s, t, s', p);
    } else if HeapAct(cfg, s, t, s') {
      HeapTrails(cfg, s, t, s', p);
    } else if RefillTake(s, t, s') || ExpandGranted(s, t, s') || ExpandRefused(cfg, s, t, s')
              || RefillFull(cfg, s, t, s') || Install(s, t, s') {
      RefillTrails(cfg, s, t, s', p);
    } else if Dispatch(cfg, s, t, s') || PoolTake(cfg, s, t, s') {
      TakeTrails(cfg, s, t, s', p);
    } else {
      GiveTrails(cfg, s, t, s', p);
    }
  }

  lemma MovesOffStays(cfg: Config, s: Sys, t: nat, s': Sys, p: int)
    requires Inv(cfg, s) && Inv(cfg, s') && ThreadStep(cfg, s, t, s') && t in s.threads
    requires MovesOff(s.threads[t], p) && p != 0
    requires t in s'.threads && !s.threads[t].at.Idle? && !s'.threads[t].at.Idle?
    ensures MovesOff(s'.threads[t], p)
  {
    StepTrails(cfg, s, t, s', p);
    assert RegsDistinct(s'.threads[t]);
  }

  lemma KeptStays(cfg: Config, s: Sys, t: nat, s': Sys, p: int)
    requires ThreadStep(cfg, s, t, s') && t in s.threads && KeptIt(s.threads[t], p)
    requires t in s'.threads && !s'.threads[t].at.Idle?
    ensures KeptIt(s'.threads[t], p)
  {
  }

  /** How the call stands after the deciding step. */
  ghost predicate Settled(s: Sys, th: Thread, p: int, n: int) {
    if StaysPut(s, p, n) then KeptIt(th, p) else MovesOff(th, p)
  }

  lemma UndecidedNext(cfg: Config, s: Sys, s': Sys, t: nat, p: int, n: int)
    requires Inv(cfg, s) && Next(cfg, s, s') && t in s.threads && Undecided(s.threads[t], p, n)
    ensures t in s'.threads
    ensures Undecided(s'.threads[t], p, n) || (Decides(cfg, s, t, s') && Settled(s, s'.threads[t], p, n))
  {
    if ThreadStep(cfg, s, t, s') {
      UndecidedStep(cfg, s, t, s', p, n);
    } else if u :| ThreadStep(cfg, s, u, s') {
      StepKeeps(cfg, s, u, s');
    }
  }

  lemma SettledNext(cfg: Config, s: Sys, s': Sys, t: nat, p: int)
    requires Inv(cfg, s) && Inv(cfg, s') && Next(cfg, s, s') && t in s.threads && t in s'.threads && p != 0
    requires !s.threads[t].at.Idle? && !s'.threads[t].at.Idle?
    ensures KeptIt(s.threads[t], p) ==> KeptIt(s'.threads[t], p)
    ensures MovesOff(s.threads[t], p) ==> MovesOff(s'.threads[t], p)
  {
    if ThreadStep(cfg, s, t, s') {
      if KeptIt(s.threads[t], p) {
        KeptStays(cfg, s, t, s', p);
      }
      if MovesOff(s.threads[t], p) {
        MovesOffStays(cfg, s, t, s', p);
      }
    } else if u :| ThreadStep(cfg, s, u, s') {
      StepKeeps(cfg, s, u, s');
    }
  }

  /** The realloc stands undecided in state k, or was decided at m. */
  ghost predicate Stands(cfg: Config, run: seq<Sys>, t: nat, p: int, n: int, k: nat, m: nat) {
    && k < |run| && t in run[k].threads
    && (Undecided(run[k].threads[t], p, n)
        || (m < k && Decides(cfg, run[m], t, run[m + 1]) && Settled(run[m], run[k].threads[t], p, n)))
  }

  lemma StandsNext(cfg: Config, run: seq<Sys>, t: nat, p: int, n: int, i: nat, j: nat, k: nat, m: nat) returns (m': nat)
    requires IsRun(cfg, run) && InCall(run, t, i, j) && i <= k < j && p != 0 && m <= k
    requires Stands(cfg, run, t, p, n, k, m)
    ensures (m' == m || m' == k) && Stands(cfg, run, t, p, n, k + 1, m')
  {
    var s, s' := run[k], run[k + 1];
    RunInv(cfg, run, k);
    RunInv(cfg, run, k + 1);
    assert Follows(cfg, run, k);
    if Undecided(s.threads[t], p, n) {
      UndecidedNext(cfg, s, s', t, p, n);
      m' := k;
    } else {
      SettledNext(cfg, s, s', t, p);
      m' := m;
    }
  }

  lemma {:induction false} StandsUntil(cfg: Config, run: seq<Sys>, t: nat, p: int, n: int, i: nat, j: nat, k: nat) returns (m: nat)
    requires IsRun(cfg, run) && InCall(run, t, i, j) && i <= k <= j && p != 0
    requires Undecided(run[i].threads[t], p, n)
    ensures i <= m <= k && Stands(cfg, run, t, p, n, k, m)
    decreases k
  {
    m := k;
    if k == i {
    } else {
      m := StandsUntil(cfg, run, t, p, n, i, j, k - 1);
      m := StandsNext(cfg, run, t, p, n, i, j, k - 1, m);
    }
  }

  lemma StartsUndecided(s: Sys, t: nat, p: int, n: int, s': Sys)
    requires StartRealloc(s, t, p, n, s')
    ensures t in s'.threads && Undecided(s'.threads[t], p, n)
  {
  }

  lemma ReturnsSettled(s: Sys, s': Sys, t: nat, p: int, n: int)
    requires Returns(s', t) && p != 0
    ensures !Undecided(s'.threads[t], p, n)
    ensures Settled(s, s'.threads[t], p, n) ==> (s'.threads[t].result == p <==> StaysPut(s, p, n))
  {
  }

  /** my_realloc of p, from its call at step i to step j where it is about to return, and whatever
      other threads do: it returns p itself exactly when, at the step of the call that decides it,
      p's slot or block was large enough or the free block right after it ended far enough on. */
  lemma ReallocSamePointer(cfg: Config, run: seq<Sys>, t: nat, p: int, n: int, i: nat, j: nat) returns (m: nat)
    requires IsRun(cfg, run) && i < j && InCall(run, t, i + 1, j) && StartRealloc(run[i], t, p, n, run[i + 1])
    requires Returns(run[j], t)
    ensures i < m < j && Decides(cfg, run[m], t, run[m + 1])
    ensures run[j].threads[t].result == p <==> StaysPut(run[m], p, n)
  {
    RunInv(cfg, run, i);
    HeldPayload(cfg, run[i], p);
    StartsUndecided(run[i], t, p, n, run[i + 1]);
    m := StandsUntil(cfg, run, t, p, n, i + 1, j, j);
    ReturnsSettled(run[m], run[j], t, p, n);
  }

  // ---- Null means that the system refused -------------------------------------------------------------

  /** A step of t at which the system refuses it memory. */
  ghost predicate Refusal(cfg: Config, s: Sys, t: nat, s': Sys) {
    || ExpandRefused(cfg, s, t, s')
    || (GeneralTake(cfg, s, t, s'.words, s') && t in s'.threads && s'.threads[t].result == 0)
  }

  lemma ExpandRefusalMeans(cfg: Config, s: Sys, t: nat, s': Sys)
    requires ExpandRefused(cfg, s, t, s')
    ensures PoolIsOut(s, s.threads[t].i)
    ensures s'.heap == s.heap && s'.sl == s.sl && s'.held == s.held && s'.os.mapped == s.os.mapped
    ensures !s.threads[t].at.GeneralAlloc?
  {
    TotalAligned(s.threads[t].i);
    AskGrants(s.os, Total(s.threads[t].i) * SLOTS_PER_ARENA);
  }

  /** The chain of class i's pool is empty, and the system refuses the pool an arena. */
  ghost predicate PoolIsOut(s: Sys, i: nat) {
    var request := (16 + Payload(i)) * 256;
    At(s.sl, InPool(i)) == [] && 0 <= request && s.os.Ask(request).0.None?
  }

  lemma TakeRefusalMeans(cfg: Config, s: Sys, t: nat, s': Sys)
    requires MemoryOk(cfg, s) && GeneralTake(cfg, s, t, s'.words, s') && 4096 < s.threads[t].n
    requires s'.threads[t].result == 0
    ensures s.threads[t].n <= MAX_REQUEST
    ensures HL.NoMemory(s.heap, s.os, cfg.arenaSize, AlignUp(s.threads[t].n))
    ensures s'.heap == s.heap && s'.sl == s.sl && s'.held == s.held && s'.os.mapped == s.os.mapped
  {
    var th := s.threads[t];
    AlignUpExact(th.n);
    HL.AllocateMeans(s.heap, s.os, cfg.arenaSize, AlignUp(th.n));
    AskGrants(s.os, RequestSize(OVERHEAD + AlignUp(th.n), cfg.arenaSize));
  }

  /** A refusal: no free slot or no block that fits, no room left, and the system said no;
      nothing but t's place in its call changes. */
  lemma RefusalMeans(cfg: Config, s: Sys, t: nat, s': Sys)
    requires Inv(cfg, s) && Refusal(cfg, s, t, s')
    ensures s'.heap == s.heap && s'.sl == s.sl && s'.held == s.held && s'.os.mapped == s.os.mapped
    ensures if s.threads[t].at.GeneralAlloc? then
              0 <= s.threads[t].n <= MAX_REQUEST && HL.NoMemory(s.heap, s.os, cfg.arenaSize, AlignUp(s.threads[t].n))
            else PoolIsOut(s, s.threads[t].i)
  {
    if ExpandRefused(cfg, s, t, s') {
      ExpandRefusalMeans(cfg, s, t, s');
    } else {
      IsReady(cfg, s, t);
      TakeServesLarge(s, t);
      TakeRefusalMeans(cfg, s, t, s');
    }
  }

  lemma TakeServesLarge(s: Sys, t: nat)
    requires Ready(s, t) && s.threads[t].at.GeneralAlloc?
    ensures 4096 < s.threads[t].n <= MAX_REQUEST
  {
  }

  ghost predicate BeginsAllocation(s: Sys, t: nat, s': Sys) {
    (exists n :: StartMalloc(s, t, n, s')) || (exists p, n :: StartRealloc(s, t, p, n, s'))
  }

  /** As far as t has got, it has been given memory. */
  ghost predicate Hopeful(s: Sys, t: nat) {
    && t in s.threads
    && var th := s.threads[t];
    && (IsReturning(th.at) ==> th.result != 0)
    && (th.at.Installing? || (th.at.Leave? && th.at.next.Installing?) ==> At(s.sl, InFlight(t, th.i)) != [])
  }

  lemma LocksStayHopeful(cfg: Config, s: Sys, t: nat, s': Sys)
    requires Hopeful(s, t) && Sensible(s.threads[t].at) && (Acquire(cfg, s, t, s') || Unlock(s, t, s'))
    ensures Hopeful(s', t)
  {
  }

  lemma RouteStaysHopeful(cfg: Config, s: Sys, t: nat, s': Sys)
    requires Ready(s, t) && (ReadTag(cfg, s, t, s') || ReallocRoute(cfg, s, t, s'))
    ensures Hopeful(s', t)
  {
  }

  lemma EndsStayHopeful(s: Sys, t: nat, s': Sys)
    requires BeginsAllocation(s, t, s') || (exists p :: StartFree(s, t, p, s')) || Return(s, t, s') || FreeReturn(s, t, s')
    requires t in s'.threads && !s'.threads[t].at.Idle?
    ensures Hopeful(s', t)
  {
  }

  lemma ControlStaysHopeful(cfg: Config, s: Sys, t: nat, s': Sys)
    requires ControlAct(cfg, s, t, s') && Ready(s, t) && Hopeful(s, t)
    requires t in s'.threads && !s'.threads[t].at.Idle?
    ensures Hopeful(s', t)
  {
    if Acquire(cfg, s, t, s') || Unlock(s, t, s') {
      LocksStayHopeful(cfg, s, t, s');
    } else if ReadTag(cfg, s, t, s') || ReallocRoute(cfg, s, t, s') {
      RouteStaysHopeful(cfg, s, t, s');
    } else {
      EndsStayHopeful(s, t, s');
    }
  }

  lemma SlotStaysHopeful(cfg: Config, s: Sys, t: nat, s': Sys)
    requires MemoryOk(cfg, s) && SlotAct(cfg, s, t, s') && Ready(s, t) && Hopeful(s, t) && !Refusal(cfg, s, t, s')
    requires t in s'.threads
    ensures Hopeful(s', t)
  {
    if Dispatch(cfg, s, t, s') {
      FirstSlot(cfg, s, InCache(t, ClassFor(s.threads[t].n)));
      DispatchHopes(cfg, s, t, s');
    } else if PoolTake(cfg, s, t, s') {
      FirstSlot(cfg, s, InPool(s.threads[t].i));
    } else if RefillFull(cfg, s, t, s') || Install(s, t, s') {
      RefillHopes(cfg, s, t, s');
    } else {
      OtherSlotActs(cfg, s, t, s');
    }
  }

  lemma FirstSlot(cfg: Config, s: Sys, p: Place)
    requires MemoryOk(cfg, s)
    ensures At(s.sl, p) != [] ==> 0 < At(s.sl, p)[0]
  {
    assert PlaceOk(s.sl, s.words, p);
    HeadFacts(s.words, LinkTo(At(s.sl, p), 0), At(s.sl, p));
    if At(s.sl, p) != [] {
      assert LinkOk(s.words, At(s.sl, p), 0);
    }
  }

  lemma DispatchHopes(cfg: Config, s: Sys, t: nat, s': Sys)
    requires Dispatch(cfg, s, t, s')
    requires var p := InCache(t, ClassFor(s.threads[t].n)); At(s.sl, p) != [] ==> 0 < At(s.sl, p)[0]
    ensures Hopeful(s', t)
  {
  }

  lemma RefillHopes(cfg: Config, s: Sys, t: nat, s': Sys)
    requires Hopeful(s, t) && (RefillFull(cfg, s, t, s') || Install(s, t, s'))
    ensures Hopeful(s', t)
  {
  }

  lemma OtherSlotActs(cfg: Config, s: Sys, t: nat, s': Sys)
    requires CachePush(s, t, s') || PoolPush(cfg, s, t, s') || Detach(s, t, s') || SpliceBack(cfg, s, t, s')
             || RefillTake(s, t, s') || ExpandGranted(s, t, s')
    ensures Hopeful(s', t)
  {
  }

  lemma ResizeHopes(cfg: Config, s: Sys, t: nat, s': Sys)
    requires Resize(cfg, s, t, s'.words, s') && s.threads[t].source != 0
    ensures Hopeful(s', t)
  {
  }

  lemma HeapStaysHopeful(cfg: Config, s: Sys, t: nat, s': Sys)
    requires HeapAct(cfg, s, t, s') && !Refusal(cfg, s, t, s') && t in s'.threads
    requires t in s.threads && (s.threads[t].at.Resizing? ==> s.threads[t].source != 0)
    ensures Hopeful(s', t)
  {
    if Resize(cfg, s, t, s'.words, s') {
      ResizeHopes(cfg, s, t, s');
    }
  }

  lemma StaysHopeful(cfg: Config, s: Sys, s': Sys, t: nat)
    requires Inv(cfg, s) && Next(cfg, s, s') && Hopeful(s, t) && !Refusal(cfg, s, t, s')
    requires t in s'.threads && !s'.threads[t].at.Idle?
    ensures Hopeful(s', t)
  {
    if u :| ThreadStep(cfg, s, u, s') {
      StepKeeps(cfg, s, u, s');
      if u == t {
        IsReady(cfg, s, t);
        StepActs(cfg, s, t, s');
        if ControlAct(cfg, s, t, s') {
          ControlStaysHopeful(cfg, s, t, s');
        } else if SlotAct(cfg, s, t, s') {
          SlotStaysHopeful(cfg, s, t, s');
        } else {
          ReadyFacts(s, t);
          HeapStaysHopeful(cfg, s, t, s');
        }
      } else {
        assert SamePlaces(s, s', t, s.threads[t].i);
      }
    }
  }

  lemma NextHopeful(cfg: Config, run: seq<Sys>, t: nat, k: nat)
    requires IsRun(cfg, run) && k + 1 < |run| && Hopeful(run[k], t)
    requires t in run[k + 1].threads && !run[k + 1].threads[t].at.Idle?
    ensures Hopeful(run[k + 1], t) || Refusal(cfg, run[k], t, run[k + 1])
  {
    RunInv(cfg, run, k);
    assert Follows(cfg, run, k);
    if !Refusal(cfg, run[k], t, run[k + 1]) {
      StaysHopeful(cfg, run[k], run[k + 1], t);
    }
  }

  lemma {:induction false} RefusedOrHopeful(cfg: Config, run: seq<Sys>, t: nat, i: nat, j: nat) returns (m: nat)
    requires IsRun(cfg, run) && InCall(run, t, i, j) && Hopeful(run[i], t)
    ensures Hopeful(run[j], t) || (i <= m < j && Refusal(cfg, run[m], t, run[m + 1]))
    decreases j
  {
    m := j;
    if j <= i {
    } else {
      assert InCall(run, t, i, j - 1);
      m := RefusedOrHopeful(cfg, run, t, i, j - 1);
      if Hopeful(run[j - 1], t) {
        m := j - 1;
        NextHopeful(cfg, run, t, m);
      }
    }
  }

  /** my_malloc and my_realloc return null only if, during that very call, the system refused
      the calling thread memory. */
  lemma NullMeansRefused(cfg: Config, run: seq<Sys>, t: nat, i: nat, j: nat) returns (m: nat)
    requires IsRun(cfg, run) && i < j && InCall(run, t, i + 1, j)
    requires BeginsAllocation(run[i], t, run[i + 1])
    requires run[j].threads[t].at.Returning? && run[j].threads[t].result == 0
    ensures i < m < j && Refusal(cfg, run[m], t, run[m + 1])
  {
    m := RefusedOrHopeful(cfg, run, t, i + 1, j);
  }
}
