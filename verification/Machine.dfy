/** The machine underneath the allocator: one flat memory of 8-byte words, addressed in
    bytes, and the operating system that maps regions of it on request. */
module Machine {
  datatype Option<+T> = None | Some(value: T)

  /** A region of memory obtained from the operating system. */
  datatype Region = Region(base: int, size: int)

  type Words = map<int, int>

  const PAGE := 4096
  const WORD_LIMIT := 0x1_0000_0000_0000_0000
  const ALIGNMENT := 16

  /** The largest request whose rounding and block overhead stay below 2^64. */
  const MAX_REQUEST := WORD_LIMIT - 48

  /** align_up on 64-bit words: the addition wraps, the mask clears the low four bits. */
  function AlignUp(size: int): int
    requires 0 <= size < WORD_LIMIT
  {
    var sum := (size + ALIGNMENT - 1) % WORD_LIMIT;
    sum - sum % ALIGNMENT
  }

  /** Rounding promises a block of at least the requested size exactly when the addition does
      not wrap, and a header and footer can be added to it exactly up to MAX_REQUEST: past that,
      the block asked for is smaller than the request. */
  lemma AlignUpExact(size: int)
    requires 0 <= size <= 0xFFFF_FFFF_FFFF_FFFF
    ensures AlignUp(size) % 16 == 0
    ensures size <= AlignUp(size) <==> size <= 0xFFFF_FFFF_FFFF_FFF0
    ensures size <= 0xFFFF_FFFF_FFFF_FFF0 ==> AlignUp(size) < size + 16
    ensures size <= MAX_REQUEST <==> size <= (AlignUp(size) + 32) % 0x1_0000_0000_0000_0000
    ensures size <= MAX_REQUEST <==> size <= 0xFFFF_FFFF_FFFF_FFD0
    ensures size <= MAX_REQUEST ==> AlignUp(size) + 32 <= 0xFFFF_FFFF_FFFF_FFFF
  {
  }

  lemma AlignedIsWord(x: int)
    requires x % ALIGNMENT == 0
    ensures x % 8 == 0
  {
  }

  lemma AlignedAdd(x: int, y: int)
    requires x % ALIGNMENT == 0 && y % ALIGNMENT == 0
    ensures (x + y) % ALIGNMENT == 0 && (x - y) % ALIGNMENT == 0
  {
  }

  lemma EightsAdd(x: int, y: int)
    requires x % 8 == 0 && y % 8 == 0
    ensures (x + y) % 8 == 0
  {
  }

  function RoundUpToPage(size: int): (rounded: int)
    requires 0 <= size
    ensures size <= rounded < size + 4096 && rounded % 4096 == 0
  {
    (size + PAGE - 1) / PAGE * PAGE
  }

  lemma PagesAligned(x: int)
    requires x % 4096 == 0
    ensures x % ALIGNMENT == 0
  {
    var pages := x / 4096;
    assert x == 4096 * pages;
    SixteenTimes(256 * pages);
  }

  lemma SixteenTimes(m: int)
    ensures 16 * m % ALIGNMENT == 0
  {
  }

  /** The word addresses of a region. */
  function WordsOf(r: Region): set<int> {
    set w | r.base <= w < r.base + r.size && w % 8 == 0
  }

  lemma InRegion(r: Region, w: int)
    requires r.base <= w < r.base + r.size && w % ALIGNMENT == 0
    ensures w in WordsOf(r)
  {
    AlignedIsWord(w);
  }

  /** Aligned regions without a common word do not overlap. */
  lemma RegionsApart(r: Region, q: Region)
    requires r.base % ALIGNMENT == 0 && q.base % ALIGNMENT == 0 && 0 < r.size && 0 < q.size
    requires WordsOf(r) !! WordsOf(q)
    ensures r.base + r.size <= q.base || q.base + q.size <= r.base
  {
    if r.base <= q.base < r.base + r.size {
      InRegion(r, q.base);
      InRegion(q, q.base);
    } else if q.base <= r.base < q.base + q.size {
      InRegion(r, r.base);
      InRegion(q, r.base);
    }
  }

  /** Word w lies outside the region. */
  predicate Aside(w: int, r: Region) {
    w < r.base || r.base + r.size <= w
  }

  /** What the operating system may answer: the words already mapped, the largest mapping
      it grants, and the bases it will propose, in order. A proposal it cannot honour is a
      refusal, so every sequence of grants and refusals has a script. */
  datatype Os = Os(mapped: set<int>, largest: int, answers: seq<int>) {
    predicate Usable(base: int, size: int) {
      && 0 < base
      && base % PAGE == 0
      && size <= largest
      && forall w {:trigger Aside(w, Region(base, size))} | w in mapped :: Aside(w, Region(base, size))
    }

    /** os_acquire: a page-rounded region disjoint from everything mapped, or nothing. */
    function Ask(size: int): (Option<Region>, Os)
      requires 0 <= size
    {
      if size == 0 || answers == [] then
        (None, this)
      else
        var r := Region(answers[0], RoundUpToPage(size));
        if Usable(r.base, r.size) then
          (Some(r), Os(mapped + WordsOf(r), largest, answers[1..]))
        else
          (None, Os(mapped, largest, answers[1..]))
    }
  }

  /** A grant is whole pages at a page boundary. */
  lemma GrantIsPages(os: Os, size: int)
    requires 0 <= size && os.Ask(size).0.Some?
    ensures os.Ask(size).0.value.base % 4096 == 0 && os.Ask(size).0.value.size % 4096 == 0
  {
  }

  /** A grant is aligned, large enough by less than a page, no larger than the system's limit, and
      fresh; a refusal maps nothing. */
  lemma AskGrants(os: Os, size: int)
    requires 0 <= size
    ensures var (answer, os') := os.Ask(size);
            && os'.largest == os.largest
            && os.mapped <= os'.mapped
            && match answer {
                 case None => os'.mapped == os.mapped
                 case Some(r) =>
                   && 0 < r.base && r.base % ALIGNMENT == 0 && r.size % ALIGNMENT == 0
                   && 0 < size <= r.size < size + 4096 && r.size <= os.largest
                   && WordsOf(r) !! os.mapped
                   && (forall w {:trigger Aside(w, r)} | w in os.mapped :: Aside(w, r))
                   && os'.mapped == os.mapped + WordsOf(r)
               }
  {
    if size != 0 && os.answers != [] && os.Usable(os.answers[0], RoundUpToPage(size)) {
      var r := Region(os.answers[0], RoundUpToPage(size));
      PagesAligned(r.base);
      PagesAligned(r.size);
      forall w | w in os.mapped ensures w !in WordsOf(r) {
        assert Aside(w, r);
      }
    }
  }

  /** Physical memory. Reading or writing an unmapped word is not possible: every access
      below carries the proof that its word is mapped. */
  class Memory {
    var words: Words
    var answers: seq<int>
    const largest: int

    constructor (largest: int, answers: seq<int>)
      ensures words == map[] && this.largest == largest && this.answers == answers
    {
      this.words := map[];
      this.largest := largest;
      this.answers := answers;
    }

    ghost function System(): Os
      reads this
    {
      Os(words.Keys, largest, answers)
    }

    method Store(a: int, value: int)
      requires a in words
      modifies this`words
      ensures words == old(words)[a := value]
    {
      words := words[a := value];
    }

    method Acquire(size: int) returns (answer: Option<Region>)
      requires 0 <= size
      modifies this
      ensures (answer, System()) == old(System()).Ask(size)
      ensures forall w | w in old(words) :: w in words && words[w] == old(words)[w]
      ensures forall w | w in words && w !in old(words) :: words[w] == 0
    {
      if size == 0 || answers == [] {
        return None;
      }
      var base := answers[0];
      var rounded := RoundUpToPage(size);
      answers := answers[1..];
      if base <= 0 || base % PAGE != 0 || rounded > largest
         || exists w | w in words :: !Aside(w, Region(base, rounded)) {
        assert !old(System()).Usable(base, rounded);
        return None;
      }
      assert old(System()).Usable(base, rounded);
      answer := Some(Region(base, rounded));
      words := words + map w | w in WordsOf(Region(base, rounded)) :: 0;
      assert words.Keys == old(words).Keys + WordsOf(Region(base, rounded));
    }
  }
}
