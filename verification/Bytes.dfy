/** Single bytes of 8-byte words, least significant first. */
module Bytes {
  import opened Machine

  function Pow256(k: nat): (p: int)
    ensures 0 < p
  {
    if k == 0 then 1 else 256 * Pow256(k - 1)
  }

  function Byte(word: int, k: nat): int {
    word / Pow256(k) % 256
  }

  /** A word with its lowest r bytes cleared. */
  function ClearLow(word: int, r: nat): int {
    word - word % Pow256(r)
  }

  /** The byte at address a is zero. */
  ghost predicate ZeroByte(words: Words, a: int) {
    a - a % 8 in words && Byte(words[a - a % 8], a % 8) == 0
  }

  lemma {:induction false} PowSplit(i: nat, j: nat)
    ensures Pow256(i + j) == Pow256(i) * Pow256(j)
    decreases i
  {
    if i == 0 {
    } else {
      PowSplit(i - 1, j);
      MulAssociative(256, Pow256(i - 1), Pow256(j));
    }
  }

  lemma MulAssociative(x: int, y: int, z: int)
    ensures x * y * z == x * (y * z)
  {
  }

  /** A quotient is determined by its remainder. */
  lemma QuotientIs(x: int, c: int, q: int, r: int)
    requires 0 < c && x == c * q + r && 0 <= r < c
    ensures x / c == q
  {
    var d := x / c;
    assert x == c * d + x % c && 0 <= x % c < c;
    if d < q {
      MulGap(c, d, q);
    } else if q < d {
      MulGap(c, q, d);
    }
  }

  lemma MulGap(c: int, p: int, q: int)
    requires 0 < c && p < q
    ensures c * p + c <= c * q
  {
    var n := q - p;
    assert c * q == c * p + c * n;
    MulStep(c, n);
  }

  lemma MulStep(c: int, n: int)
    requires 0 < c && 0 < n
    ensures c <= c * n
  {
  }

  lemma DivOfMultiple(c: int, m: int)
    requires 0 < c
    ensures c * m / c == m
  {
    QuotientIs(c * m, c, m, 0);
  }

  lemma MultipleOf256(m: int)
    ensures 256 * m % 256 == 0
  {
  }

  /** Clearing the low bytes makes exactly those bytes zero. */
  lemma ClearedBytes(word: int, r: nat, i: nat)
    requires i < r
    ensures Byte(ClearLow(word, r), i) == 0
  {
    var q := word / Pow256(r);
    var rest := Pow256(r - i - 1) * q;
    assert ClearLow(word, r) == Pow256(r) * q;
    PowSplit(i, r - i);
    assert Pow256(r - i) == 256 * Pow256(r - i - 1);
    MulAssociative(Pow256(i), Pow256(r - i), q);
    MulAssociative(256, Pow256(r - i - 1), q);
    assert ClearLow(word, r) == Pow256(i) * (256 * rest);
    DivOfMultiple(Pow256(i), 256 * rest);
    MultipleOf256(rest);
  }

  lemma ZeroBytes(i: nat)
    ensures Byte(0, i) == 0
  {
    DivOfMultiple(Pow256(i), 0);
  }
}
