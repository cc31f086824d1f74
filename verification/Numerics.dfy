/** Integer facts shared by every module: ceiling division, the 32-bit casts the host code applies to
    its grid sizes, and the row-major index arithmetic of the kernels. Products and quotients of two variables
    are written Times, Quot and Rem, so that proofs about indices stay linear and meet multiplication only through
    the lemmas below. */
module Numerics {

  const U32_LIMIT: nat := 0x1_0000_0000
  const I32_LIMIT: nat := 0x8000_0000

  /** The Rust cast `x as u32`, which keeps the low 32 bits. */
  function AsU32(x: nat): (r: nat)
    ensures r < U32_LIMIT
    ensures x < U32_LIMIT ==> r == x
  {
    x % U32_LIMIT
  }

  function Min(a: int, b: int): int { if a < b then a else b }

  function Max(a: int, b: int): int { if a < b then b else a }

  // ---- products ----

  function Times(a: nat, b: nat): nat
    decreases a
  {
    if a == 0 then 0 else Times(a - 1, b) + b
  }

  lemma {:induction false} TimesIs(a: nat, b: nat)
    ensures Times(a, b) == a * b
    decreases a
  {
    if a > 0 {
      TimesIs(a - 1, b);
      assert (a - 1) * b == a * b - b;
    }
  }

  lemma TimesSucc(a: nat, b: nat)
    ensures Times(a + 1, b) == Times(a, b) + b
  {
  }

  lemma {:induction false} TimesSum(a: nat, b: nat, c: nat)
    ensures Times(a + b, c) == Times(a, c) + Times(b, c)
    decreases b
  {
    if b > 0 { TimesSum(a, b - 1, c); }
  }

  lemma TimesLess(a: nat, b: nat, c: nat)
    requires a <= b
    ensures Times(a, c) <= Times(b, c) && Times(b - a, c) == Times(b, c) - Times(a, c)
  {
    TimesSum(a, b - a, c);
  }

  lemma TimesComm(a: nat, b: nat)
    ensures Times(a, b) == Times(b, a)
  {
    TimesIs(a, b);
    TimesIs(b, a);
  }

  lemma {:induction false} TimesAssoc(a: nat, b: nat, c: nat)
    ensures Times(a, Times(b, c)) == Times(Times(a, b), c)
    decreases a
  {
    if a > 0 {
      TimesAssoc(a - 1, b, c);
      TimesSum(Times(a - 1, b), b, c);
    }
  }

  lemma TimesMono(a: nat, b: nat, c: nat, d: nat)
    requires a <= c && b <= d
    ensures Times(a, b) <= Times(c, d)
  {
    TimesLess(a, c, b);
    TimesComm(c, b);
    TimesComm(c, d);
    TimesLess(b, d, c);
  }

  lemma TimesPositive(a: nat, b: nat)
    requires a > 0 && b > 0
    ensures Times(a, b) >= a && Times(a, b) >= b
  {
    TimesLess(1, a, b);
    TimesComm(a, b);
    TimesLess(1, b, a);
  }

  lemma FactorPositive(a: nat, b: nat, x: nat)
    requires x < Times(a, b)
    ensures a > 0 && b > 0
  {
    TimesIs(a, b);
  }

  /** The two-digit number with digits `i` and `j` in radix `s`: row `i`, column `j` of a row-major matrix. */
  function Flat(i: nat, s: nat, j: nat): nat { Times(i, s) + j }

  /** A row-major index stays inside its matrix. */
  lemma FlatInBounds(i: nat, r: nat, s: nat, j: nat)
    requires i < r && j < s
    ensures Flat(i, s, j) < Times(r, s)
  {
    TimesLess(i + 1, r, s);
  }

  // ---- quotients ----

  function Quot(p: nat, s: nat): nat
    requires s > 0
  {
    p / s
  }

  function Rem(p: nat, s: nat): (r: nat)
    requires s > 0
    ensures r < s
  {
    p % s
  }

  lemma MulMono(a: int, b: int, s: nat)
    requires a <= b
    ensures a * s <= b * s
  {
    assert (b - a) * s >= 0;
  }

  /** Quotient and remainder are the only digits. */
  lemma DivideUnique(p: nat, s: nat, q: nat, r: nat)
    requires s > 0 && r < s && p == q * s + r
    ensures p / s == q && p % s == r
  {
    var q' := p / s;
    assert p == q' * s + p % s;
    assert (q' - q) * s == q' * s - q * s;
    if q' > q { MulMono(1, q' - q, s); }
    if q' < q { MulMono(1, q - q', s); }
  }

  lemma DivideParts(p: nat, s: nat)
    requires s > 0
    ensures p == (p / s) * s + p % s && p % s < s
  {
  }

  lemma Recompose(p: nat, s: nat)
    requires s > 0
    ensures p == Flat(Quot(p, s), s, Rem(p, s))
  {
    DivideParts(p, s);
    TimesIs(p / s, s);
  }

  lemma FlatDigits(i: nat, s: nat, j: nat)
    requires j < s
    ensures Quot(Flat(i, s, j), s) == i && Rem(Flat(i, s, j), s) == j
  {
    TimesIs(i, s);
    DivideUnique(Flat(i, s, j), s, i, j);
  }

  lemma QuotBound(p: nat, r: nat, s: nat)
    requires s > 0 && p < Times(r, s)
    ensures Quot(p, s) < r
  {
    Recompose(p, s);
    if Quot(p, s) >= r { TimesLess(r, Quot(p, s), s); }
  }

  lemma DigitsFlat(p: nat, r: nat, s: nat)
    requires s > 0 && p < Times(r, s)
    ensures Quot(p, s) < r && Rem(p, s) < s && p == Flat(Quot(p, s), s, Rem(p, s))
  {
    QuotBound(p, r, s);
    Recompose(p, s);
  }

  /** `s` divides `p`. */
  predicate Divides(s: nat, p: nat)
    requires s > 0
  {
    Rem(p, s) == 0
  }

  lemma DividesIs(s: nat, p: nat)
    requires s > 0 && Divides(s, p)
    ensures p == Times(Quot(p, s), s)
  {
    Recompose(p, s);
  }

  // ---- ceiling division ----

  function DivCeil(a: nat, b: nat): (r: nat)
    requires b > 0
    ensures a <= Times(r, b) < a + b
    ensures a > 0 <==> r > 0
  {
    Recompose(a + b - 1, b);
    Quot(a + b - 1, b)
  }

  lemma DivCeilBelow(a: nat, b: nat)
    requires b > 0
    ensures DivCeil(a, b) <= a
  {
    if DivCeil(a, b) > a {
      ChunkStarts(a, a, b);
      if a > 0 { TimesPositive(a, b); }
    }
  }

  /** Chunk `f` of a ceiling division starts before the end. */
  lemma ChunkStarts(f: nat, a: nat, b: nat)
    requires b > 0 && f < DivCeil(a, b)
    ensures Times(f, b) < a
  {
    TimesLess(f + 1, DivCeil(a, b), b);
  }

  /** A ceiling division into chunks of `c` that cover `a` gives no more chunks than that. */
  lemma FewerChunks(a: nat, f: nat, c: nat)
    requires c > 0 && a <= Times(f, c)
    ensures DivCeil(a, c) <= f
  {
    if DivCeil(a, c) > f { ChunkStarts(f, a, c); }
  }

  /** `a` rounded up to a multiple of `b`. */
  function RoundUp(a: nat, b: nat): (r: nat)
    requires b > 0
    ensures a <= r < a + b
  {
    Times(DivCeil(a, b), b)
  }

  lemma RoundUpExact(a: nat, b: nat)
    requires b > 0 && Divides(b, a)
    ensures RoundUp(a, b) == a && DivCeil(a, b) == Quot(a, b)
  {
    DividesIs(b, a);
    FlatDigits(Quot(a, b), b, b - 1);
  }

  // ---- alignment ----

  /** Multiples of four (or eight) stay so, whatever they are multiplied by. */
  lemma SumMod4(a: nat, b: nat)
    ensures b % 4 == 0 ==> (a + b) % 4 == a % 4 && (b + a) % 4 == a % 4
  {
  }

  lemma SumMod8(a: nat, b: nat)
    ensures b % 8 == 0 ==> (a + b) % 8 == a % 8 && (b + a) % 8 == a % 8
  {
  }

  lemma {:induction false} MulMod4(a: nat, b: nat)
    requires b % 4 == 0
    ensures Times(a, b) % 4 == 0
    decreases a
  {
    if a > 0 { MulMod4(a - 1, b); }
  }

  lemma {:induction false} MulMod8(a: nat, b: nat)
    requires b % 8 == 0
    ensures Times(a, b) % 8 == 0
    decreases a
  {
    if a > 0 { MulMod8(a - 1, b); }
  }

  lemma {:induction false} MulMod16(a: nat, b: nat)
    requires b % 16 == 0
    ensures Times(a, b) % 16 == 0
    decreases a
  {
    if a > 0 { MulMod16(a - 1, b); }
  }

  lemma NextQuad(j: nat, n: nat)
    requires j % 4 == 0 && n % 4 == 0 && j < n
    ensures j + 4 <= n && (j + 4) % 4 == 0
  {
  }

  /** Between two indices a stride apart no index has their remainder. */
  lemma StrideGap(k: nat, d: nat)
    requires d > 0
    ensures Rem(k + d, d) == Rem(k, d)
    ensures forall k' :: k < k' < k + d ==> Rem(k', d) != Rem(k, d)
  {
    Recompose(k, d);
    FlatDigits(Quot(k, d) + 1, d, Rem(k, d));
    forall k' | k < k' < k + d ensures Rem(k', d) != Rem(k, d) {
      Recompose(k', d);
      Recompose(k, d);
      var q, q' := Quot(k, d), Quot(k', d);
      if q' <= q { TimesLess(q', q, d); } else { TimesLess(q + 1, q', d); }
    }
  }

  /** Dropping the remainder leaves a multiple of 32, and so of four. */
  lemma DropTail(k: nat)
    ensures (k - k % 32) % 32 == 0 && (k - k % 32) % 4 == 0 && k - k % 32 <= k
  {
    assert k - k % 32 == 32 * (k / 32);
  }
}
