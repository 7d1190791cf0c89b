/** The allocator as a client may think of it: live pointers with their payloads, in which every
    call takes effect in one step. */
module AtomicAllocator {
  /** The words of a payload, by byte offset. */
  type Payload = map<int, int>

  /** Where a thread stands in its call: what it asked for, and what it has been given. A null
      result is 0. */
  datatype Call =
    | NoCall
    | Allocating(n: int)
    | Allocated(n: int, p: int)
    | Moving(p: int, n: int)
    | Moved(p: int, n: int, q: int)
    | Freeing(p: int, r: int)
    | Released(r: int)

  datatype Atomic = Atomic(live: map<int, Payload>, held: set<int>, calls: map<nat, Call>)

  /** The payload has every word of the first n bytes. */
  ghost predicate Covers(d: Payload, n: int) {
    forall k | 0 <= k < n && k % 8 == 0 :: k in d
  }

  ghost predicate Extends(d: Payload, d': Payload) {
    forall k | k in d :: k in d' && d'[k] == d[k]
  }

  ghost predicate CopiedOver(d: Payload, e: Payload, e': Payload) {
    && d.Keys <= e.Keys && e'.Keys == e.Keys
    && forall k | k in e :: e'[k] == if k in d then d[k] else e[k]
  }

  /** A pointer that was not live becomes live, with room for n bytes. */
  ghost predicate Adds(live: map<int, Payload>, live': map<int, Payload>, p: int, n: int) {
    p != 0 && p !in live && p in live' && live' == live[p := live'[p]] && Covers(live'[p], n)
  }

  ghost predicate Rewrites(live: map<int, Payload>, live': map<int, Payload>, p: int) {
    p in live && p in live' && live' == live[p := live'[p]]
  }

  // ---- The steps of a call -------------------------------------------------------------------

  ghost predicate Begins(held: set<int>, held': set<int>, c: Call, c': Call) {
    && c == NoCall
    && match c'
       case Allocating(n) => 0 <= n && held' == held
       case Freeing(p, r) => p in held && held' == held - {p} && r == 0
       case Moving(p, n) => 0 <= n && p in held && held' == held - {p}
       case _ => false
  }

  /** malloc's effect, and the first effect of a realloc that moves. */
  ghost predicate Allocates(live: map<int, Payload>, live': map<int, Payload>, c: Call, c': Call) {
    match c
    case Allocating(n) => c' == Allocated(n, if c'.Allocated? then c'.p else 0) && Adds(live, live', c'.p, n)
    case Moving(p, n) => c' == Moved(p, n, if c'.Moved? then c'.q else 0) && Adds(live, live', c'.q, n)
    case _ => false
  }

  /** The effect of a realloc that keeps its pointer. */
  ghost predicate Resizes(live: map<int, Payload>, live': map<int, Payload>, c: Call, c': Call) {
    && c.Moving? && c' == Allocated(c.n, c.p)
    && Rewrites(live, live', c.p) && Extends(live[c.p], live'[c.p]) && Covers(live'[c.p], c.n)
  }

  /** A realloc that moves copies the whole old payload, then goes on to free it. */
  ghost predicate Copies(live: map<int, Payload>, live': map<int, Payload>, c: Call, c': Call) {
    && c.Moved? && c' == Freeing(c.p, c.q)
    && c.p in live && Rewrites(live, live', c.q) && CopiedOver(live[c.p], live[c.q], live'[c.q])
  }

  ghost predicate Releases(live: map<int, Payload>, live': map<int, Payload>, c: Call, c': Call) {
    c.Freeing? && c' == Released(c.r) && c.p in live && live' == live - {c.p}
  }

  ghost function Result(p: int): set<int> { if p == 0 then {} else {p} }

  /** A call returns. A malloc or realloc without effect returns null, and such a realloc gives
      its pointer back. */
  ghost predicate Ends(held: set<int>, held': set<int>, c: Call, c': Call) {
    && c' == NoCall
    && match c
       case Allocating(_) => held' == held
       case Allocated(_, p) => held' == held + {p}
       case Moving(p, _) => held' == held + {p}
       case Released(r) => held' == held + Result(r)
       case _ => false
  }

  /** No effect yet, a beginning, an end, or the one effect of a call (two for a realloc that
      moves, with the copy between them). */
  ghost predicate Takes(live: map<int, Payload>, live': map<int, Payload>, held: set<int>, held': set<int>, c: Call, c': Call) {
    || (live' == live && held' == held && c' == c)
    || (live' == live && (Begins(held, held', c, c') || Ends(held, held', c, c')))
    || (held' == held && (Allocates(live, live', c, c') || Resizes(live, live', c, c')
                          || Copies(live, live', c, c') || Releases(live, live', c, c')))
  }

  ghost predicate CallStep(a: Atomic, t: nat, a': Atomic) {
    && t in a.calls && t in a'.calls && a'.calls == a.calls[t := a'.calls[t]]
    && Takes(a.live, a'.live, a.held, a'.held, a.calls[t], a'.calls[t])
  }

  /** A client writes a word of a payload it holds. */
  ghost predicate Writes(a: Atomic, a': Atomic, p: int, k: int, value: int) {
    && p in a.held && p in a.live && k in a.live[p]
    && a' == a.(live := a.live[p := a.live[p][k := value]])
  }

  ghost predicate AtomicNext(a: Atomic, a': Atomic) {
    || (exists t: nat :: CallStep(a, t, a'))
    || (exists p, k, value :: Writes(a, a', p, k, value))
  }

  ghost predicate AtomicInit(a: Atomic) {
    a.live == map[] && a.held == {} && forall t | t in a.calls :: a.calls[t] == NoCall
  }
}
