/** Where every pooled slot is while threads run: in a pool's chain, in one thread's cache, in
    one thread's hands between the two, or live with a client. */
module SlotSystem {
  import opened Machine
  import opened FreeLists
  import opened Chains
  import opened MemoryPool

  const SIZE_CLASSES: seq<int> := [16, 32, 64, 128, 256, 512, 1024, 2048, 4096]
  const CLASSES := 9

  function Payload(i: nat): int {
    if i < CLASSES then SIZE_CLASSES[i] else 16
  }

  function Total(i: nat): int { SLOT_HEADER + Payload(i) }

  /** The index of the smallest class that holds n bytes, or CLASSES when none does. */
  function ClassFor(n: int): (i: nat)
    ensures i <= CLASSES
    ensures i < CLASSES <==> n <= 4096
    ensures i < CLASSES ==> n <= Payload(i) && (0 < i ==> Payload(i - 1) < n)
  {
    if n <= 16 then 0 else if n <= 32 then 1 else if n <= 64 then 2 else if n <= 128 then 3
    else if n <= 256 then 4 else if n <= 512 then 5 else if n <= 1024 then 6
    else if n <= 2048 then 7 else if n <= 4096 then 8 else 9
  }

  function PowerOf2(i: nat): int {
    if i == 0 then 1 else 2 * PowerOf2(i - 1)
  }

  lemma {:induction false} ClassSize(i: nat)
    requires i < 9
    ensures Payload(i) == 16 * PowerOf2(i)
  {
    if i == 0 {
    } else {
      ClassSize(i - 1);
    }
  }

  /** A request is served from the smallest power of two from 16 to 4096 that holds it. */
  lemma ClassIsPower(n: int)
    ensures var i := ClassFor(n);
            && (i < 9 <==> n <= 4096)
            && (i < 9 ==> Payload(i) == 16 * PowerOf2(i) && n <= 16 * PowerOf2(i) && (0 < i ==> 8 * PowerOf2(i) < n))
  {
    var i := ClassFor(n);
    if i < 9 {
      ClassSize(i);
      if 0 < i {
        ClassSize(i - 1);
      }
    }
  }

  /** A place that keeps free slots of one class as a chain in memory. */
  datatype Place =
    | InPool(i: nat)
    | InCache(t: nat, i: nat)
    | InFlight(t: nat, i: nat)

  /** The chains, the slots carved so far, and the class of each live slot. */
  datatype Slots = Slots(chains: map<Place, seq<int>>, carved: map<nat, set<int>>, live: map<int, nat>)

  ghost function At(sl: Slots, p: Place): seq<int> {
    if p in sl.chains then sl.chains[p] else []
  }

  ghost predicate IsSlot(sl: Slots, i: nat, x: int) {
    i in sl.carved && x in sl.carved[i]
  }

  // ---- The invariant -----------------------------------------------------------------------

  /** The words spell out the chain, and its slots are free slots of the place's class. */
  ghost predicate PlaceOk(sl: Slots, words: Words, p: Place) {
    && Chained(words, LinkTo(At(sl, p), 0), At(sl, p))
    && forall x | x in At(sl, p) :: x !in sl.live && IsSlot(sl, p.i, x)
  }

  ghost predicate Exclusive(sl: Slots) {
    forall p, q, x | x in At(sl, p) && x in At(sl, q) :: p == q
  }

  /** A live slot is a slot of its class, tagged with its pool's address. */
  ghost predicate LiveOk(addr: seq<int>, sl: Slots, words: Words, x: int)
    requires x in sl.live
  {
    var i := sl.live[x];
    IsSlot(sl, i, x) && i < |addr| && x in words && words[x] == addr[i]
  }

  /** Slot x of class i is live, or in some chain of its class. */
  ghost predicate Somewhere(sl: Slots, i: nat, x: int) {
    || (x in sl.live && sl.live[x] == i)
    || exists p: Place :: p.i == i && x in At(sl, p)
  }

  ghost predicate Clear(i: nat, x: int, j: nat, y: int) {
    (i == j && x == y) || x + Total(i) <= y || y + Total(j) <= x
  }

  ghost predicate Mapped(mapped: set<int>, i: nat, x: int) {
    0 < x && x % ALIGNMENT == 0 && WordsOf(Region(x, Total(i))) <= mapped
  }

  /** Slots of all classes are aligned, mapped and disjoint. */
  ghost predicate Geometry(sl: Slots, mapped: set<int>) {
    && (forall i | i in sl.carved :: i < CLASSES)
    && (forall i, x {:trigger Mapped(mapped, i, x)} | IsSlot(sl, i, x) :: Mapped(mapped, i, x))
    && (forall i, x, j, y {:trigger Clear(i, x, j, y)} | IsSlot(sl, i, x) && IsSlot(sl, j, y) :: Clear(i, x, j, y))
  }

  ghost predicate PlacesOk(addr: seq<int>, sl: Slots, words: Words, mapped: set<int>) {
    && |addr| == CLASSES && mapped <= words.Keys
    && Geometry(sl, mapped)
    && Exclusive(sl)
    && (forall p {:trigger PlaceOk(sl, words, p)} :: PlaceOk(sl, words, p))
    && (forall x {:trigger LiveOk(addr, sl, words, x)} | x in sl.live :: LiveOk(addr, sl, words, x))
    && (forall i, x {:trigger Somewhere(sl, i, x)} | IsSlot(sl, i, x) :: Somewhere(sl, i, x))
  }

  lemma SlotWord(sl: Slots, words: Words, mapped: set<int>, i: nat, x: int)
    requires Geometry(sl, mapped) && mapped <= words.Keys && IsSlot(sl, i, x)
    ensures 0 < x && x % ALIGNMENT == 0 && x in words && x in WordsOf(Region(x, Total(i)))
  {
    assert Mapped(mapped, i, x);
    InRegion(Region(x, Total(i)), x);
  }

  /** A slot belongs to one class only. */
  lemma OneClass(sl: Slots, mapped: set<int>, i: nat, j: nat, x: int)
    requires Geometry(sl, mapped) && IsSlot(sl, i, x) && IsSlot(sl, j, x)
    ensures i == j
  {
    assert Clear(i, x, j, x);
  }

  // ---- Moves -------------------------------------------------------------------------------

  ghost function PopSlots(sl: Slots, p: Place): Slots
    requires At(sl, p) != []
  {
    Slots(sl.chains[p := At(sl, p)[1..]], sl.carved, sl.live[At(sl, p)[0] := p.i])
  }

  /** The first slot of a chain becomes live and takes its pool's tag. */
  lemma PopKeeps(addr: seq<int>, sl: Slots, words: Words, mapped: set<int>, p: Place)
    requires PlacesOk(addr, sl, words, mapped) && At(sl, p) != []
    ensures var x := At(sl, p)[0];
            && x !in sl.live && IsSlot(sl, p.i, x) && p.i < CLASSES && x in words
            && PlacesOk(addr, PopSlots(sl, p), words[x := addr[p.i]], mapped)
  {
    var chain := At(sl, p);
    var x := chain[0];
    assert PlaceOk(sl, words, p) && x in chain;
    HeadFacts(words, x, chain);
    var sl', words' := PopSlots(sl, p), words[x := addr[p.i]];
    forall q ensures PlaceOk(sl', words', q) {
      assert PlaceOk(sl, words, q);
      if q == p {
        assert At(sl', q) == chain[1..] && LinkTo(chain[1..], 0) == LinkTo(chain, 1);
        assert forall y | y in chain[1..] :: y in chain && y != x;
      } else {
        assert At(sl', q) == At(sl, q) && x !in At(sl, q);
      }
      ChainedFrame(words, words', LinkTo(At(sl', q), 0), At(sl', q));
    }
    SlotWord(sl, words, mapped, p.i, x);
    assert Exclusive(sl') by {
      assert forall q, y | y in At(sl', q) :: y in At(sl, q);
    }
    forall y | y in sl'.live ensures LiveOk(addr, sl', words', y) {
      assert y != x ==> LiveOk(addr, sl, words, y);
    }
    forall i, y | IsSlot(sl', i, y) ensures Somewhere(sl', i, y) {
      assert Somewhere(sl, i, y);
      if y == x {
        OneClass(sl, mapped, i, p.i, x);
      } else if !(y in sl.live && sl.live[y] == i) {
        var q: Place :| q.i == i && y in At(sl, q);
        assert y in At(sl', q);
      }
    }
  }

  ghost function PushSlots(sl: Slots, p: Place, x: int): Slots {
    Slots(sl.chains[p := [x] + At(sl, p)], sl.carved, sl.live - {x})
  }

  /** A live slot of the place's class goes to the front of its chain. */
  lemma PushKeeps(addr: seq<int>, sl: Slots, words: Words, mapped: set<int>, p: Place, x: int)
    requires PlacesOk(addr, sl, words, mapped) && x in sl.live && sl.live[x] == p.i
    ensures PlacesOk(addr, PushSlots(sl, p, x), words[x := LinkTo(At(sl, p), 0)], mapped)
  {
    assert LiveOk(addr, sl, words, x) && PlaceOk(sl, words, p);
    var chain := At(sl, p);
    SlotWord(sl, words, mapped, p.i, x);
    assert x !in chain;
    var sl', words' := PushSlots(sl, p, x), words[x := LinkTo(chain, 0)];
    Push(words, LinkTo(chain, 0), chain, x);
    forall q ensures PlaceOk(sl', words', q) {
      assert PlaceOk(sl, words, q) && x !in At(sl, q);
      if q != p {
        ChainedFrame(words, words', LinkTo(At(sl, q), 0), At(sl, q));
      }
    }
    forall y | y in sl'.live ensures LiveOk(addr, sl', words', y) {
      assert LiveOk(addr, sl, words, y);
    }
    forall i, y | IsSlot(sl', i, y) ensures Somewhere(sl', i, y) {
      assert Somewhere(sl, i, y);
      if y == x {
        OneClass(sl, mapped, i, p.i, x);
        assert y in At(sl', p);
      } else if !(y in sl.live && sl.live[y] == i) {
        var q: Place :| q.i == i && y in At(sl, q);
        assert y in At(sl', q);
      }
    }
    assert Exclusive(sl') by {
      forall q, r, y | y in At(sl', q) && y in At(sl', r) ensures q == r {
        assert PlaceOk(sl, words, q) && PlaceOk(sl, words, r);
      }
    }
  }

  ghost function Transfer(sl: Slots, p: Place, cp: seq<int>, q: Place, cq: seq<int>): Slots {
    sl.(chains := sl.chains[p := cp][q := cq])
  }

  /** Redistributing the slots of two chains of one class between them, by writing only their
      own header words, keeps everything. */
  lemma TransferKeeps(addr: seq<int>, sl: Slots, words: Words, words': Words, mapped: set<int>,
                      p: Place, cp: seq<int>, q: Place, cq: seq<int>)
    requires PlacesOk(addr, sl, words, mapped) && p != q && p.i == q.i
    requires forall x :: x in cp || x in cq <==> x in At(sl, p) || x in At(sl, q)
    requires forall x | x in cp :: x !in cq
    requires Chained(words', LinkTo(cp, 0), cp) && Chained(words', LinkTo(cq, 0), cq)
    requires words'.Keys == words.Keys
    requires forall w | w in words && w !in At(sl, p) && w !in At(sl, q) :: words'[w] == words[w]
    ensures PlacesOk(addr, Transfer(sl, p, cp, q, cq), words', mapped)
  {
    var sl' := Transfer(sl, p, cp, q, cq);
    assert PlaceOk(sl, words, p) && PlaceOk(sl, words, q);
    assert At(sl', p) == cp && At(sl', q) == cq;
    assert forall r | r != p && r != q :: At(sl', r) == At(sl, r);
    forall r ensures PlaceOk(sl', words', r) {
      assert PlaceOk(sl, words, r);
      if r != p && r != q {
        ChainedFrame(words, words', LinkTo(At(sl, r), 0), At(sl, r));
      }
    }
    forall x | x in sl'.live ensures LiveOk(addr, sl', words', x) {
      assert LiveOk(addr, sl, words, x);
    }
    forall i, x | IsSlot(sl', i, x) ensures Somewhere(sl', i, x) {
      assert Somewhere(sl, i, x);
      if !(x in sl.live && sl.live[x] == i) {
        var r: Place :| r.i == i && x in At(sl, r);
        var r' := if r == p || r == q then (if x in cp then p else q) else r;
        assert x in At(sl', r');
      }
    }
  }

  /** A pool's first free slot goes to the tail of a batch. */
  lemma TakeKeeps(addr: seq<int>, sl: Slots, words: Words, mapped: set<int>, p: Place, q: Place)
    requires PlacesOk(addr, sl, words, mapped) && p != q && p.i == q.i && At(sl, p) != []
    ensures var x, batch := At(sl, p)[0], At(sl, q);
            var w := words[x := 0];
            PlacesOk(addr, Transfer(sl, p, At(sl, p)[1..], q, batch + [x]),
                    if batch == [] then w else w[Last(batch) := x], mapped)
  {
    var chain, batch := At(sl, p), At(sl, q);
    var x := chain[0];
    var w := words[x := 0];
    var words' := if batch == [] then w else w[Last(batch) := x];
    assert PlaceOk(sl, words, p) && PlaceOk(sl, words, q) && x in chain;
    SlotWord(sl, words, mapped, p.i, x);
    HeadFacts(words, x, chain);
    assert x !in batch;
    Append(words, LinkTo(batch, 0), batch, x);
    assert batch != [] ==> Last(batch) in batch && LinkOk(words, batch, |batch| - 1);
    ChainedFrame(words, words', LinkTo(chain[1..], 0), chain[1..]);
    TransferKeeps(addr, sl, words, words', mapped, p, chain[1..], q, batch + [x]);
  }

  /** A fetched batch becomes the contents of an empty cache; no word is written. */
  lemma InstallKeeps(addr: seq<int>, sl: Slots, words: Words, mapped: set<int>, q: Place, p: Place)
    requires PlacesOk(addr, sl, words, mapped) && p != q && p.i == q.i && At(sl, p) == []
    ensures PlacesOk(addr, Transfer(sl, p, At(sl, q), q, []), words, mapped)
  {
    assert PlaceOk(sl, words, q) && PlaceOk(sl, words, p);
    TransferKeeps(addr, sl, words, words, mapped, p, At(sl, q), q, []);
  }

  /** The first n slots of a cache are cut off as a batch. */
  lemma DetachKeeps(addr: seq<int>, sl: Slots, words: Words, mapped: set<int>, p: Place, q: Place, n: nat)
    requires PlacesOk(addr, sl, words, mapped) && p != q && p.i == q.i
    requires 1 <= n <= |At(sl, p)| && At(sl, q) == []
    ensures PlacesOk(addr, Transfer(sl, p, At(sl, p)[n..], q, At(sl, p)[..n]),
                    words[At(sl, p)[n - 1] := 0], mapped)
  {
    var chain := At(sl, p);
    assert PlaceOk(sl, words, p) && chain[n - 1] in chain;
    SlotWord(sl, words, mapped, p.i, chain[n - 1]);
    Cut(words, LinkTo(chain, 0), chain, n);
    assert chain == chain[..n] + chain[n..];
    assert LinkTo(chain, n) == LinkTo(chain[n..], 0) && LinkTo(chain, 0) == LinkTo(chain[..n], 0);
    TransferKeeps(addr, sl, words, words[chain[n - 1] := 0], mapped, p, chain[n..], q, chain[..n]);
  }

  /** A batch is spliced onto a pool's chain with one write. */
  lemma SpliceKeeps(addr: seq<int>, sl: Slots, words: Words, mapped: set<int>, q: Place, p: Place)
    requires PlacesOk(addr, sl, words, mapped) && p != q && p.i == q.i && At(sl, q) != []
    ensures Last(At(sl, q)) in words
    ensures PlacesOk(addr, Transfer(sl, p, At(sl, q) + At(sl, p), q, []),
                    words[Last(At(sl, q)) := LinkTo(At(sl, p), 0)], mapped)
  {
    var batch, chain := At(sl, q), At(sl, p);
    assert PlaceOk(sl, words, q) && PlaceOk(sl, words, p) && Last(batch) in batch;
    assert forall x | x in batch :: x !in chain;
    Splice(words, LinkTo(batch, 0), batch, LinkTo(chain, 0), chain);
    TransferKeeps(addr, sl, words, words[Last(batch) := LinkTo(chain, 0)], mapped, p, batch + chain, q, []);
  }

  /** The slots of a new arena, added to the empty chain of their pool. */
  ghost function ExpandSlots(sl: Slots, i: nat, r: Region): Slots {
    var added := Carved(r.base, r.size, Total(i));
    var before := if i in sl.carved then sl.carved[i] else {};
    Slots(sl.chains[InPool(i) := added], sl.carved[i := before + set x | x in added], sl.live)
  }

  lemma ExpandGeometry(sl: Slots, mapped: set<int>, i: nat, r: Region)
    requires Geometry(sl, mapped) && i < CLASSES
    requires 0 < r.base && r.base % ALIGNMENT == 0 && WordsOf(r) !! mapped
    ensures Geometry(ExpandSlots(sl, i, r), mapped + WordsOf(r))
    ensures forall x | x in Carved(r.base, r.size, Total(i)) :: forall j :: !IsSlot(sl, j, x)
    ensures forall x | x in Carved(r.base, r.size, Total(i)) :: WordsOf(Region(x, Total(i))) <= WordsOf(r)
  {
    var added, sl', mapped' := Carved(r.base, r.size, Total(i)), ExpandSlots(sl, i, r), mapped + WordsOf(r);
    CarvedSlots(r.base, r.size, Total(i));
    forall x | x in added ensures Mapped(mapped', i, x) && WordsOf(Region(x, Total(i))) <= WordsOf(r) {
    }
    forall x, j, y | x in added && IsSlot(sl, j, y)
      ensures Clear(i, x, j, y) && Clear(j, y, i, x) && x != y
    {
      assert Mapped(mapped, j, y);
      RegionsApart(Region(x, Total(i)), Region(y, Total(j)));
    }
    forall j, x | IsSlot(sl', j, x) ensures Mapped(mapped', j, x) {
      if IsSlot(sl, j, x) {
        assert Mapped(mapped, j, x);
      }
    }
    forall j, x, k, y | IsSlot(sl', j, x) && IsSlot(sl', k, y) ensures Clear(j, x, k, y) {
      if IsSlot(sl, j, x) && IsSlot(sl, k, y) {
        assert Clear(j, x, k, y);
      } else if !IsSlot(sl, j, x) && !IsSlot(sl, k, y) {
        assert SlotsApart(Total(i), x, y);
      }
    }
  }

  lemma ExpandKeeps(addr: seq<int>, sl: Slots, words: Words, words': Words, mapped: set<int>, i: nat, r: Region)
    requires PlacesOk(addr, sl, words, mapped) && i < CLASSES && At(sl, InPool(i)) == []
    requires 0 < r.base && r.base % ALIGNMENT == 0 && WordsOf(r) !! mapped && WordsOf(r) !! words.Keys
    requires words'.Keys == words.Keys + WordsOf(r)
    requires forall w | w in words :: words'[w] == words[w]
    requires var added := Carved(r.base, r.size, Total(i)); Chained(words', LinkTo(added, 0), added)
    ensures PlacesOk(addr, ExpandSlots(sl, i, r), words', mapped + WordsOf(r))
  {
    var added, sl' := Carved(r.base, r.size, Total(i)), ExpandSlots(sl, i, r);
    ExpandGeometry(sl, mapped, i, r);
    assert forall q | q != InPool(i) :: At(sl', q) == At(sl, q);
    forall x | x in added ensures x !in sl.live && forall q :: x !in At(sl, q) {
      assert x in sl.live ==> LiveOk(addr, sl, words, x);
      forall q ensures x !in At(sl, q) {
        assert PlaceOk(sl, words, q);
      }
    }
    forall q ensures PlaceOk(sl', words', q) {
      assert PlaceOk(sl, words, q);
      if q != InPool(i) {
        ChainedFrame(words, words', LinkTo(At(sl, q), 0), At(sl, q));
      }
    }
    forall x | x in sl'.live ensures LiveOk(addr, sl', words', x) {
      assert LiveOk(addr, sl, words, x);
    }
    forall j, x | IsSlot(sl', j, x) ensures Somewhere(sl', j, x) {
      if IsSlot(sl, j, x) {
        assert Somewhere(sl, j, x);
        if !(x in sl.live && sl.live[x] == j) {
          var q: Place :| q.i == j && x in At(sl, q);
          assert x in At(sl', q);
        }
      } else {
        assert x in At(sl', InPool(i));
      }
    }
  }

  /** Writes that miss every slot's header word keep everything. */
  lemma WordsKeep(addr: seq<int>, sl: Slots, words: Words, words': Words, mapped: set<int>, mapped': set<int>)
    requires PlacesOk(addr, sl, words, mapped) && mapped <= mapped' <= words'.Keys
    requires forall i, x | IsSlot(sl, i, x) && x in words :: x in words' && words'[x] == words[x]
    ensures PlacesOk(addr, sl, words', mapped')
  {
    forall i, x | IsSlot(sl, i, x) ensures Mapped(mapped', i, x) {
      assert Mapped(mapped, i, x);
    }
    forall p ensures PlaceOk(sl, words', p) {
      assert PlaceOk(sl, words, p);
      ChainedFrame(words, words', LinkTo(At(sl, p), 0), At(sl, p));
    }
    forall x | x in sl.live ensures LiveOk(addr, sl, words', x) {
      assert LiveOk(addr, sl, words, x);
    }
  }
}
